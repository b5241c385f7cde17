/** The bucket manager at work: merges finishing, ledgers closing, states being
    queued and published, files being dropped and the process restarting, in
    any order. The hash function is a parameter; nothing is assumed of it but
    that the empty bucket, which has no file, hashes to 0. */
module BucketWorld {
  import opened BucketFile
  import opened LevelArithmetic
  import opened BucketList
  import opened BucketListRuns
  import opened FutureBucket
  import opened Restart
  import opened BucketGC

  datatype World<!K, V> = World(
    levels: seq<Level<K, V>>,
    /** The batches closed so far; its length is the last closed ledger. */
    hist: seq<Bucket<K, V>>,
    /** Levels whose pending merge has written and adopted its output. */
    finished: set<nat>,
    files: Store<K, V>,
    shared: set<Hash>,
    /** The stored state of the last closed ledger, and the merges that were
        saved there by their output. */
    lcl: seq<SavedLevel>,
    lclReady: set<nat>,
    queue: map<nat, seq<SavedLevel>>,
    counts: map<Hash, nat>,
    filled: bool,
    publishing: Option<(nat, set<Hash>)>)

  function AdoptFile<K, V>(hash: Bucket<K, V> -> Hash, files: Store<K, V>, b: Bucket<K, V>): (r: Store<K, V>) {
    if hash(b) == 0 || hash(b) in files then files else files[hash(b) := b]
  }

  function AdoptAll<K, V>(hash: Bucket<K, V> -> Hash, files: Store<K, V>, bs: seq<Bucket<K, V>>): (r: Store<K, V>) {
    if bs == [] then files else AdoptFile(hash, AdoptAll(hash, files, bs[..|bs| - 1]), bs[|bs| - 1])
  }

  function Currs<K, V>(levels: seq<Level<K, V>>): (bs: seq<Bucket<K, V>>) {
    seq(|levels|, i requires 0 <= i < |levels| => levels[i].curr)
  }

  ghost predicate Start<K, V>(hash: Bucket<K, V> -> Hash, n: nat, w: World<K, V>) {
    w == World(Initial(n), [], {}, map[], {}, SaveList(hash, {}, Initial<K, V>(n)), {}, map[], map[], false, None)
  }

  // ----- Steps -----

  /** A file is adopted: some bucket is written, say by a download. */
  ghost predicate AdoptStep<K(!new), V(!new)>(hash: Bucket<K, V> -> Hash, w: World<K, V>, w': World<K, V>) {
    exists b :: w' == w.(files := AdoptFile(hash, w.files, b), shared := w.shared + {hash(b)})
  }

  /** The merge pending on level i finishes. */
  ghost predicate FinishStep<K, V>(hash: Bucket<K, V> -> Hash, w: World<K, V>, w': World<K, V>, i: nat) {
    && i < |w.levels| && w.levels[i].next.IsMerging()
    && var b := w.levels[i].next.Outcome();
       w' == w.(files := AdoptFile(hash, w.files, b), shared := w.shared + {hash(b)}, finished := w.finished + {i})
  }

  /** The outcomes of some pending merges; the empty bucket for the rest. */
  function Outcomes<K, V>(levels: seq<Level<K, V>>, done: set<nat>): (bs: seq<Bucket<K, V>>)
    ensures |bs| == |levels|
  {
    seq(|levels|, i requires 0 <= i < |levels| =>
      if i in done && levels[i].next.IsLive() then levels[i].next.Outcome() else map[])
  }

  predicate MergingAt<K, V>(levels: seq<Level<K, V>>, i: nat) {
    i < |levels| && levels[i].next.IsMerging()
  }

  /** A ledger closes: the list takes the batch, waiting for the merges it
      commits; some of the merges it starts may be done (`quick`) before the new
      state is stored with some finished merges resolved (`ready`). */
  ghost predicate CloseStep<K, V>(hash: Bucket<K, V> -> Hash, w: World<K, V>, w': World<K, V>, batch: Bucket<K, V>,
                                  quick: set<nat>, ready: set<nat>) {
    var n, ledger := |w.levels|, |w.hist| + 1;
    var levels := CloseLedger(w.levels, ledger, batch);
    var finished := StillFinished(n, ledger, w.finished) + quick;
    var written := [batch] + Currs(levels) + Outcomes(levels, quick);
    && ready <= finished && (forall i :: i in quick ==> MergingAt(levels, i))
    && w' == w.(levels := levels, hist := w.hist + [batch], finished := finished,
                files := AdoptAll(hash, w.files, written),
                shared := w.shared + (set i | 0 <= i < |written| :: hash(written[i])),
                lcl := SaveList(hash, ready, levels), lclReady := ready)
  }

  /** The current state is queued for publication; a ledger is queued once. */
  ghost predicate QueueStep<K, V>(hash: Bucket<K, V> -> Hash, w: World<K, V>, w': World<K, V>) {
    var has := SaveList(hash, {}, w.levels);
    && |w.hist| !in w.queue
    && w' == w.(queue := w.queue[|w.hist| := has], counts := Added(w.counts, AllBuckets(has)))
  }

  ghost predicate StartPublishStep<K, V>(w: World<K, V>, w': World<K, V>, l: nat) {
    && w.publishing.None? && l in w.queue && (forall m :: m in w.queue ==> l <= m)
    && w' == w.(publishing := Some((l, AllBuckets(w.queue[l]))))
  }

  ghost predicate PublishedStep<K, V>(w: World<K, V>, w': World<K, V>, success: bool) {
    && w.publishing.Some?
    && w' == if success then
               w.(publishing := None, queue := w.queue - {w.publishing.value.0},
                 counts := Removed(w.counts, w.publishing.value.1))
             else w.(publishing := None)
  }

  /** Buckets that the list or a finished merge holds by pointer. */
  ghost function HeldOutputs<K, V>(hash: Bucket<K, V> -> Hash, w: World<K, V>): (s: set<Hash>) {
    set i | i in w.finished && i < |w.levels| && w.levels[i].next.IsLive() :: hash(w.levels[i].next.Outcome())
  }

  ghost predicate ForgetStep<K, V>(hash: Bucket<K, V> -> Hash, w: World<K, V>, w': World<K, V>, counts: map<Hash, nat>,
                                   others: set<Hash>) {
    && (if w.filled then counts == w.counts else CountsExact(counts, w.queue))
    && var referenced, inUse := Referenced(hash, w.levels, w.lcl, counts), HeldOutputs(hash, w) + others;
       w' == w.(counts := counts, filled := true, shared := w.shared * (referenced + inUse),
                files := w.files - (w.shared - referenced - inUse))
  }

  /** The process stops and starts again from the stored state; unreferenced
      files are cleaned up. */
  ghost predicate RestartStep<K, V>(hash: Bucket<K, V> -> Hash, w: World<K, V>, w': World<K, V>,
                                    levels: seq<Level<K, V>>, shared: set<Hash>) {
    && IsRestored(w.files, w.lcl, levels)
    && exists counts ::
         && CountsExact(counts, w.queue)
         && var stale := w.files.Keys - Referenced(hash, levels, w.lcl, counts) - shared;
            w' == w.(levels := levels, finished := {}, files := w.files - stale, shared := shared, lclReady := {},
                     counts := counts, filled := true, publishing := None)
  }

  /** The steps that leave the list alone. */
  ghost predicate QuietStep<K(!new), V(!new)>(hash: Bucket<K, V> -> Hash, w: World<K, V>, w': World<K, V>) {
    || AdoptStep(hash, w, w')
    || (exists i :: FinishStep(hash, w, w', i))
    || QueueStep(hash, w, w')
    || (exists l :: StartPublishStep(w, w', l))
    || (exists success :: PublishedStep(w, w', success))
    || (exists counts, others :: ForgetStep(hash, w, w', counts, others))
  }

  ghost predicate Step<K(!new), V(!new)>(hash: Bucket<K, V> -> Hash, w: World<K, V>, w': World<K, V>) {
    || QuietStep(hash, w, w')
    || (exists batch, quick, ready :: CloseStep(hash, w, w', batch, quick, ready))
    || (exists levels, shared :: RestartStep(hash, w, w', levels, shared))
  }

  // ----- What every step keeps -----

  predicate Kept<K, V>(files: Store<K, V>, names: set<Hash>) {
    forall h :: h in names ==> h == 0 || h in files
  }

  ghost predicate FilesNeeded<K, V>(hash: Bucket<K, V> -> Hash, w: World<K, V>) {
    && Kept(w.files, AllBuckets(SaveList(hash, {}, w.levels)))
    && Kept(w.files, AllBuckets(w.lcl))
    && (forall l :: l in w.queue ==> Kept(w.files, AllBuckets(w.queue[l])))
    && Kept(w.files, HeldOutputs(hash, w))
  }

  ghost predicate QueueOk<K, V>(w: World<K, V>) {
    && NoZeros(w.counts)
    && (w.filled ==> CountsExact(w.counts, w.queue))
    && (w.publishing.Some? ==>
      w.publishing.value.0 in w.queue && w.publishing.value.1 == AllBuckets(w.queue[w.publishing.value.0]))
  }

  ghost predicate StateOk<K, V>(hash: Bucket<K, V> -> Hash, n: nat, w: World<K, V>) {
    && n >= 1 && |w.levels| == n
    && hash(map[]) == 0
    && (forall h :: h in w.files ==> h != 0 && hash(w.files[h]) == h)
    && (forall i :: i in w.finished ==> MergingAt(w.levels, i))
    && (forall i :: 0 <= i < n ==> Settled(n, i, w.levels[i].next))
    && w.lclReady <= w.finished
    && w.lcl == SaveList(hash, w.lclReady, w.levels)
  }

  ghost predicate Ok<K, V>(hash: Bucket<K, V> -> Hash, n: nat, w: World<K, V>) {
    StateOk(hash, n, w) && FilesNeeded(hash, w) && QueueOk(w)
  }

  // ----- Names -----

  lemma {:induction false} KeptFromLevels<K, V>(files: Store<K, V>, has: seq<SavedLevel>)
    requires forall i, h :: 0 <= i < |has| && LevelNames(has[i], h) ==> h == 0 || h in files
    ensures Kept(files, AllBuckets(has))
  {
    forall h | h in AllBuckets(has)
      ensures h == 0 || h in files
    {
      var i := IncludedIsName(has, h);
    }
  }

  lemma {:induction false} KeptAtLevel<K, V>(files: Store<K, V>, has: seq<SavedLevel>, i: nat, h: Hash)
    requires Kept(files, AllBuckets(has)) && i < |has| && LevelNames(has[i], h)
    ensures h == 0 || h in files
  {
    NameIsIncluded(has, i, h);
  }

  lemma {:induction false} AdoptAllKeeps<K, V>(hash: Bucket<K, V> -> Hash, files: Store<K, V>, bs: seq<Bucket<K, V>>)
    requires forall h :: h in files ==> h != 0 && hash(files[h]) == h
    ensures var r := AdoptAll(hash, files, bs);
            && files.Keys <= r.Keys
            && (forall h :: h in r ==> h != 0 && hash(r[h]) == h)
            && (forall i :: 0 <= i < |bs| ==> hash(bs[i]) == 0 || hash(bs[i]) in r)
  {
    if bs != [] {
      AdoptAllKeeps(hash, files, bs[..|bs| - 1]);
    }
  }

  predicate BucketKept<K, V>(hash: Bucket<K, V> -> Hash, files: Store<K, V>, b: Bucket<K, V>) {
    hash(b) == 0 || hash(b) in files
  }

  predicate FutureKept<K, V>(hash: Bucket<K, V> -> Hash, files: Store<K, V>, f: Future<K, V>) {
    forall h :: h in SavedHashes(Save(hash, f)) ==> h == 0 || h in files
  }

  predicate BucketsKept<K, V>(hash: Bucket<K, V> -> Hash, files: Store<K, V>, bs: seq<Bucket<K, V>>) {
    forall s :: 0 <= s < |bs| ==> BucketKept(hash, files, bs[s])
  }

  lemma {:induction false} BucketsKeptMore<K, V>(hash: Bucket<K, V> -> Hash, files: Store<K, V>, bs: seq<Bucket<K, V>>,
                                                 x: Bucket<K, V>, y: Bucket<K, V>)
    requires BucketsKept(hash, files, bs) && BucketKept(hash, files, x) && BucketKept(hash, files, y)
    ensures BucketsKept(hash, files, bs + [x, y])
  {
  }

  predicate LevelsKept<K, V>(hash: Bucket<K, V> -> Hash, files: Store<K, V>, levels: seq<Level<K, V>>) {
    forall i :: 0 <= i < |levels| ==> BucketKept(hash, files, levels[i].curr) && BucketKept(hash, files, levels[i].snap)
  }

  lemma {:induction false} ShadowsOfKept<K, V>(hash: Bucket<K, V> -> Hash, files: Store<K, V>,
                                               levels: seq<Level<K, V>>, m: nat)
    requires m <= |levels| && LevelsKept(hash, files, levels)
    ensures BucketsKept(hash, files, Shadows(levels, m))
  {
    if m > 0 {
      ShadowsOfKept(hash, files, levels, m - 1);
      BucketsKeptMore(hash, files, Shadows(levels, m - 1), levels[m - 1].curr, levels[m - 1].snap);
    }
  }

  lemma {:induction false} ShadowsKept<K, V>(hash: Bucket<K, V> -> Hash, files: Store<K, V>, levels: seq<Level<K, V>>,
                                             m: nat)
    requires m <= |levels| && Kept(files, AllBuckets(SaveList(hash, {}, levels)))
    ensures BucketsKept(hash, files, Shadows(levels, m))
  {
    forall i | 0 <= i < |levels|
      ensures BucketKept(hash, files, levels[i].curr) && BucketKept(hash, files, levels[i].snap)
    {
      LevelKept(hash, files, levels, i);
    }
    ShadowsOfKept(hash, files, levels, m);
  }

  lemma {:induction false} LevelKept<K, V>(hash: Bucket<K, V> -> Hash, files: Store<K, V>, levels: seq<Level<K, V>>,
                                           i: nat)
    requires i < |levels| && Kept(files, AllBuckets(SaveList(hash, {}, levels)))
    ensures BucketKept(hash, files, levels[i].curr) && BucketKept(hash, files, levels[i].snap)
    ensures FutureKept(hash, files, levels[i].next)
  {
    var has := SaveList(hash, {}, levels);
    forall h | LevelNames(has[i], h)
      ensures h == 0 || h in files
    {
      KeptAtLevel(files, has, i, h);
    }
    assert LevelNames(has[i], hash(levels[i].curr)) && LevelNames(has[i], hash(levels[i].snap));
  }

  lemma {:induction false} StartedMergeKept<K, V>(hash: Bucket<K, V> -> Hash, files: Store<K, V>, base: Bucket<K, V>,
                                                  snap: Bucket<K, V>, shadows: seq<Bucket<K, V>>, keepDead: bool)
    requires BucketKept(hash, files, base) && BucketKept(hash, files, snap) && BucketsKept(hash, files, shadows)
    ensures FutureKept(hash, files, LiveInputs(base, snap, shadows, keepDead))
  {
    var f := LiveInputs(base, snap, shadows, keepDead);
    forall h | h in SavedHashes(Save(hash, f))
      ensures h == 0 || h in files
    {
      if h != hash(base) && h != hash(snap) {
        var s :| 0 <= s < |shadows| && HashAll(hash, shadows)[s] == h;
        assert BucketKept(hash, files, shadows[s]);
      }
    }
  }

  /** The merge a level has pending after a close names only kept buckets. */
  lemma {:induction false} ClosedNextKept<K, V>(hash: Bucket<K, V> -> Hash, levels: seq<Level<K, V>>, ledger: nat,
                                                batch: Bucket<K, V>, files: Store<K, V>, i: nat)
    requires i < |levels| && hash(map[]) == 0
    requires Kept(files, AllBuckets(SaveList(hash, {}, levels)))
    requires BucketKept(hash, files, Closed(levels, ledger, batch, i).curr)
    ensures FutureKept(hash, files, Closed(levels, ledger, batch, i).next)
  {
    var n, l := |levels|, Closed(levels, ledger, batch, i);
    if i > 0 && LevelShouldSpill(n, ledger, i - 1) {
      var base := if LevelShouldSpill(n, ledger + LevelHalf(i - 1), i) then map[] else l.curr;
      LevelKept(hash, files, levels, i - 1);
      ShadowsKept(hash, files, levels, i - 1);
      StartedMergeKept(hash, files, base, levels[i - 1].curr, Shadows(levels, i - 1), KeepDeadEntries(n, i));
      assert l.next == LiveInputs(base, levels[i - 1].curr, Shadows(levels, i - 1), KeepDeadEntries(n, i));
    } else if i > 0 {
      assert l.next == levels[i].next;
      LevelKept(hash, files, levels, i);
    }
  }

  lemma {:induction false} ClosedSnapKept<K, V>(hash: Bucket<K, V> -> Hash, levels: seq<Level<K, V>>, ledger: nat,
                                                batch: Bucket<K, V>, files: Store<K, V>, i: nat)
    requires i < |levels|
    requires Kept(files, AllBuckets(SaveList(hash, {}, levels)))
    ensures BucketKept(hash, files, Closed(levels, ledger, batch, i).snap)
  {
    LevelKept(hash, files, levels, i);
  }

  lemma {:induction false} CloseSettled<K, V>(n: nat, levels: seq<Level<K, V>>, ledger: nat, batch: Bucket<K, V>,
                                              i: nat)
    requires |levels| == n && i < n && Settled(n, i, levels[i].next)
    ensures Settled(n, i, CloseLedger(levels, ledger, batch)[i].next)
  {
  }

  /** The stored state after a close, with any finished merges resolved, names
      only kept buckets. */
  lemma {:induction false} ClosedStateKept<K, V>(hash: Bucket<K, V> -> Hash, levels: seq<Level<K, V>>, ledger: nat,
                                                 batch: Bucket<K, V>, files: Store<K, V>, ready: set<nat>)
    requires hash(map[]) == 0
    requires Kept(files, AllBuckets(SaveList(hash, {}, levels)))
    requires forall i :: 0 <= i < |levels| ==> BucketKept(hash, files, Closed(levels, ledger, batch, i).curr)
    requires forall i :: i in ready ==> OutcomeKept(hash, files, CloseLedger(levels, ledger, batch), i)
    ensures Kept(files, AllBuckets(SaveList(hash, ready, CloseLedger(levels, ledger, batch))))
  {
    var has := SaveList(hash, ready, CloseLedger(levels, ledger, batch));
    forall i, h | 0 <= i < |has| && LevelNames(has[i], h)
      ensures h == 0 || h in files
    {
      ClosedSnapKept(hash, levels, ledger, batch, files, i);
      ClosedNextKept(hash, levels, ledger, batch, files, i);
    }
    KeptFromLevels(files, has);
  }

  predicate OutcomeKept<K, V>(hash: Bucket<K, V> -> Hash, files: Store<K, V>, levels: seq<Level<K, V>>, i: nat) {
    MergingAt(levels, i) && BucketKept(hash, files, levels[i].next.Outcome())
  }

  /** Everything the close wrote is in a file. */
  lemma {:induction false} WrittenAdopted<K, V>(hash: Bucket<K, V> -> Hash, files: Store<K, V>, batch: Bucket<K, V>,
                                                levels: seq<Level<K, V>>, quick: set<nat>)
    requires forall h :: h in files ==> h != 0 && hash(files[h]) == h
    requires forall i :: i in quick ==> MergingAt(levels, i)
    ensures var r := AdoptAll(hash, files, [batch] + Currs(levels) + Outcomes(levels, quick));
            && files.Keys <= r.Keys
            && (forall h :: h in r ==> h != 0 && hash(r[h]) == h)
            && (forall i :: 0 <= i < |levels| ==> BucketKept(hash, r, levels[i].curr))
            && (forall i :: i in quick ==> OutcomeKept(hash, r, levels, i))
  {
    var n, bs := |levels|, [batch] + Currs(levels) + Outcomes(levels, quick);
    AdoptAllKeeps(hash, files, bs);
    forall i | 0 <= i < n
      ensures BucketKept(hash, AdoptAll(hash, files, bs), levels[i].curr)
    {
      assert bs[i + 1] == levels[i].curr;
    }
    forall i | i in quick
      ensures OutcomeKept(hash, AdoptAll(hash, files, bs), levels, i)
    {
      assert MergingAt(levels, i);
      assert bs[n + 1 + i] == levels[i].next.Outcome();
    }
  }

  lemma {:induction false} ClosedPending<K, V>(n: nat, levels: seq<Level<K, V>>, ledger: nat, batch: Bucket<K, V>,
                                               kept: set<nat>)
    requires |levels| == n && forall i :: 0 <= i < n ==> Settled(n, i, levels[i].next)
    requires forall i :: i in kept ==> 0 < i < n && !LevelShouldSpill(n, ledger, i - 1)
    ensures var levels' := CloseLedger(levels, ledger, batch);
            && (forall i :: 0 <= i < n ==> Settled(n, i, levels'[i].next))
            && (forall i :: i in kept ==> levels'[i].next == levels[i].next)
  {
    var levels' := CloseLedger(levels, ledger, batch);
    forall i | 0 <= i < n
      ensures Settled(n, i, levels'[i].next)
    {
      CloseSettled(n, levels, ledger, batch, i);
    }
    forall i | i in kept
      ensures levels'[i].next == levels[i].next
    {
      PendingUnlessSpilled(levels, ledger, batch, i);
    }
  }

  /** The merges finished after a close: those not restarted, and the quick ones. */
  function StillFinished(n: nat, ledger: nat, finished: set<nat>): (s: set<nat>) {
    set i | i in finished && i > 0 && !LevelShouldSpill(n, ledger, i - 1)
  }

  lemma {:induction false} StillMerging<K, V>(n: nat, levels: seq<Level<K, V>>, ledger: nat, batch: Bucket<K, V>,
                                              finished: set<nat>)
    requires |levels| == n && (forall i :: 0 <= i < n ==> Settled(n, i, levels[i].next))
             && forall i :: i in finished ==> MergingAt(levels, i)
    ensures var levels' := CloseLedger(levels, ledger, batch);
            && (forall i :: 0 <= i < n ==> Settled(n, i, levels'[i].next))
            && (forall i :: i in StillFinished(n, ledger, finished) ==>
              MergingAt(levels', i) && levels'[i].next == levels[i].next)
  {
    var kept := StillFinished(n, ledger, finished);
    forall i | i in kept
      ensures 0 < i < n && !LevelShouldSpill(n, ledger, i - 1)
    {
      assert MergingAt(levels, i);
    }
    ClosedPending(n, levels, ledger, batch, kept);
    forall i | i in kept
      ensures MergingAt(CloseLedger(levels, ledger, batch), i)
    {
      assert MergingAt(levels, i);
    }
  }

  lemma {:induction false} CloseKeepsState<K, V>(hash: Bucket<K, V> -> Hash, n: nat, w: World<K, V>, w': World<K, V>,
                                                 batch: Bucket<K, V>, quick: set<nat>, ready: set<nat>)
    requires StateOk(hash, n, w) && CloseStep(hash, w, w', batch, quick, ready)
    ensures StateOk(hash, n, w')
    ensures w.files.Keys <= w'.files.Keys
    ensures forall i :: 0 <= i < n ==> BucketKept(hash, w'.files, w'.levels[i].curr)
    ensures forall i :: i in quick ==> OutcomeKept(hash, w'.files, w'.levels, i)
  {
    WrittenAdopted(hash, w.files, batch, w'.levels, quick);
    StillMerging(n, w.levels, |w.hist| + 1, batch, w.finished);
  }

  lemma {:induction false} HeldOutcome<K, V>(hash: Bucket<K, V> -> Hash, w: World<K, V>, i: nat)
    requires Kept(w.files, HeldOutputs(hash, w)) && i in w.finished && MergingAt(w.levels, i)
    ensures OutcomeKept(hash, w.files, w.levels, i)
  {
    assert hash(w.levels[i].next.Outcome()) in HeldOutputs(hash, w);
  }

  lemma {:induction false} HeldKept<K, V>(hash: Bucket<K, V> -> Hash, w: World<K, V>)
    requires forall i :: i in w.finished ==> OutcomeKept(hash, w.files, w.levels, i)
    ensures Kept(w.files, HeldOutputs(hash, w))
  {
    forall h | h in HeldOutputs(hash, w)
      ensures h == 0 || h in w.files
    {
      var i :| i in w.finished && i < |w.levels| && w.levels[i].next.IsLive() && h == hash(w.levels[i].next.Outcome());
      assert OutcomeKept(hash, w.files, w.levels, i);
    }
  }

  lemma {:induction false} CloseKeepsFiles<K, V>(hash: Bucket<K, V> -> Hash, w: World<K, V>, files: Store<K, V>,
                                                 levels: seq<Level<K, V>>, ledger: nat, batch: Bucket<K, V>,
                                                 finished: set<nat>, ready: set<nat>)
    requires hash(map[]) == 0 && ready <= finished && levels == CloseLedger(w.levels, ledger, batch)
    requires Kept(files, AllBuckets(SaveList(hash, {}, w.levels)))
    requires forall i :: 0 <= i < |levels| ==> BucketKept(hash, files, levels[i].curr)
    requires forall i :: i in finished ==> OutcomeKept(hash, files, levels, i)
    ensures Kept(files, AllBuckets(SaveList(hash, {}, levels)))
    ensures Kept(files, AllBuckets(SaveList(hash, ready, levels)))
  {
    forall i | 0 <= i < |levels|
      ensures levels[i] == Closed(w.levels, ledger, batch, i)
    {
    }
    ClosedStateKept(hash, w.levels, ledger, batch, files, {});
    ClosedStateKept(hash, w.levels, ledger, batch, files, ready);
  }

  lemma {:induction false} ClosedOutcomesKept<K, V>(hash: Bucket<K, V> -> Hash, n: nat, w: World<K, V>,
                                                    w': World<K, V>, batch: Bucket<K, V>, quick: set<nat>,
                                                    ready: set<nat>)
    requires StateOk(hash, n, w) && Kept(w.files, HeldOutputs(hash, w)) && CloseStep(hash, w, w', batch, quick, ready)
    requires w.files.Keys <= w'.files.Keys && forall i :: i in quick ==> OutcomeKept(hash, w'.files, w'.levels, i)
    ensures forall i :: i in w'.finished ==> OutcomeKept(hash, w'.files, w'.levels, i)
  {
    StillMerging(n, w.levels, |w.hist| + 1, batch, w.finished);
    forall i | i in w'.finished
      ensures OutcomeKept(hash, w'.files, w'.levels, i)
    {
      if i !in quick {
        assert i in StillFinished(n, |w.hist| + 1, w.finished);
        HeldOutcome(hash, w, i);
      }
    }
  }

  lemma {:induction false} CloseKeeps<K, V>(hash: Bucket<K, V> -> Hash, n: nat, w: World<K, V>, w': World<K, V>,
                                            batch: Bucket<K, V>, quick: set<nat>, ready: set<nat>)
    requires Ok(hash, n, w) && CloseStep(hash, w, w', batch, quick, ready)
    ensures Ok(hash, n, w')
  {
    CloseKeepsState(hash, n, w, w', batch, quick, ready);
    ClosedOutcomesKept(hash, n, w, w', batch, quick, ready);
    HeldKept(hash, w');
    CloseKeepsFiles(hash, w, w'.files, w'.levels, |w.hist| + 1, batch, w'.finished, ready);
  }

  lemma {:induction false} PendingUnlessSpilled<K, V>(levels: seq<Level<K, V>>, ledger: nat, batch: Bucket<K, V>,
                                                      i: nat)
    requires 0 < i < |levels| && !LevelShouldSpill(|levels|, ledger, i - 1)
    ensures CloseLedger(levels, ledger, batch)[i].next == levels[i].next
  {
  }

  // ----- The other steps -----

  lemma {:induction false} AdoptKeeps<K, V>(hash: Bucket<K, V> -> Hash, n: nat, w: World<K, V>, b: Bucket<K, V>)
    requires Ok(hash, n, w)
    ensures Ok(hash, n, w.(files := AdoptFile(hash, w.files, b), shared := w.shared + {hash(b)}))
  {
  }

  lemma {:induction false} OneMoreOutputKept<K, V>(hash: Bucket<K, V> -> Hash, w: World<K, V>, w': World<K, V>, i: nat)
    requires w'.levels == w.levels && w'.finished == w.finished + {i} && i < |w.levels| && w.levels[i].next.IsLive()
    requires w.files.Keys <= w'.files.Keys && BucketKept(hash, w'.files, w.levels[i].next.Outcome())
    requires Kept(w.files, HeldOutputs(hash, w))
    ensures Kept(w'.files, HeldOutputs(hash, w'))
  {
    forall h | h in HeldOutputs(hash, w')
      ensures h == hash(w.levels[i].next.Outcome()) || h in HeldOutputs(hash, w)
    {
    }
  }

  lemma {:induction false} FinishKeeps<K, V>(hash: Bucket<K, V> -> Hash, n: nat, w: World<K, V>, w': World<K, V>,
                                             i: nat)
    requires Ok(hash, n, w) && FinishStep(hash, w, w', i)
    ensures Ok(hash, n, w')
  {
    OneMoreOutputKept(hash, w, w', i);
  }

  lemma {:induction false} QueueKeeps<K, V>(hash: Bucket<K, V> -> Hash, n: nat, w: World<K, V>, w': World<K, V>)
    requires Ok(hash, n, w) && QueueStep(hash, w, w')
    ensures Ok(hash, n, w')
  {
    var has := SaveList(hash, {}, w.levels);
    if w.filled {
      AddedExact(w.counts, w.queue, |w.hist|, has);
    }
    assert HeldOutputs(hash, w') == HeldOutputs(hash, w);
  }

  lemma {:induction false} StartPublishKeeps<K, V>(hash: Bucket<K, V> -> Hash, n: nat, w: World<K, V>, w': World<K, V>,
                                                   l: nat)
    requires Ok(hash, n, w) && StartPublishStep(w, w', l)
    ensures Ok(hash, n, w')
  {
    assert HeldOutputs(hash, w') == HeldOutputs(hash, w);
  }

  lemma {:induction false} PublishedKeeps<K, V>(hash: Bucket<K, V> -> Hash, n: nat, w: World<K, V>, w': World<K, V>,
                                                success: bool)
    requires Ok(hash, n, w) && PublishedStep(w, w', success)
    ensures Ok(hash, n, w')
  {
    if success && w.filled {
      RemovedExact(w.counts, w.queue, w.publishing.value.0);
    }
    assert HeldOutputs(hash, w') == HeldOutputs(hash, w);
  }

  /** With exact counts, a queued state's buckets are counted. */
  lemma {:induction false} QueuedIsCounted(counts: map<Hash, nat>, queue: map<nat, seq<SavedLevel>>, l: nat, h: Hash)
    requires CountsExact(counts, queue) && l in queue && h in AllBuckets(queue[l])
    ensures h in counts
  {
    assert l in Users(queue, h);
    assert Count(counts, h) == |Users(queue, h)| > 0;
  }

  lemma {:induction false} ForgetKeeps<K, V>(hash: Bucket<K, V> -> Hash, n: nat, w: World<K, V>, w': World<K, V>,
                                             counts: map<Hash, nat>, others: set<Hash>)
    requires Ok(hash, n, w) && ForgetStep(hash, w, w', counts, others)
    ensures Ok(hash, n, w')
  {
    assert HeldOutputs(hash, w') == HeldOutputs(hash, w);
    forall l, h | l in w.queue && h in AllBuckets(w.queue[l])
      ensures h in counts
    {
      QueuedIsCounted(counts, w.queue, l, h);
    }
  }

  // ----- Restarting -----

  lemma {:induction false} RestoredLevelSavesSame<K, V>(hash: Bucket<K, V> -> Hash, files: Store<K, V>, n: nat, i: nat,
                                                        s: SavedLevel, l: Level<K, V>)
    requires hash(map[]) == 0 && forall h :: h in files ==> hash(files[h]) == h
    requires RestoreLevel(files, n, i, s) == Some(l)
    ensures SaveLevel(hash, {}, i, l) == s
    ensures Settled(n, i, l.next)
  {
    if s.next.SavedInputs? {
      assert HashAll(hash, l.next.shadows) == s.next.shadows;
    }
  }

  lemma {:induction false} RestoredSavesSame<K, V>(hash: Bucket<K, V> -> Hash, files: Store<K, V>,
                                                   has: seq<SavedLevel>, levels: seq<Level<K, V>>)
    requires hash(map[]) == 0 && forall h :: h in files ==> hash(files[h]) == h
    requires IsRestored(files, has, levels)
    ensures SaveList(hash, {}, levels) == has
    ensures forall i :: 0 <= i < |has| ==> Settled(|has|, i, levels[i].next)
  {
    forall i | 0 <= i < |has|
      ensures SaveList(hash, {}, levels)[i] == has[i] && Settled(|has|, i, levels[i].next)
    {
      RestoredLevelSavesSame(hash, files, |has|, i, has[i], levels[i]);
    }
  }

  lemma {:induction false} RestartKeeps<K, V>(hash: Bucket<K, V> -> Hash, n: nat, w: World<K, V>, w': World<K, V>,
                                              levels: seq<Level<K, V>>, shared: set<Hash>)
    requires Ok(hash, n, w) && RestartStep(hash, w, w', levels, shared)
    ensures Ok(hash, n, w')
  {
    RestoredSavesSame(hash, w.files, w.lcl, levels);
    assert HeldOutputs(hash, w') == {};
    forall l, h | l in w.queue && h in AllBuckets(w.queue[l])
      ensures h in w'.counts
    {
      QueuedIsCounted(w'.counts, w.queue, l, h);
    }
  }

  lemma {:induction false} QuietKeeps<K(!new), V(!new)>(hash: Bucket<K, V> -> Hash, n: nat, w: World<K, V>,
                                                        w': World<K, V>)
    requires Ok(hash, n, w) && QuietStep(hash, w, w')
    ensures Ok(hash, n, w')
    ensures w'.levels == w.levels && w'.hist == w.hist
  {
    if AdoptStep(hash, w, w') {
      var b :| w' == w.(files := AdoptFile(hash, w.files, b), shared := w.shared + {hash(b)});
      AdoptKeeps(hash, n, w, b);
    } else if i :| FinishStep(hash, w, w', i) {
      FinishKeeps(hash, n, w, w', i);
    } else if QueueStep(hash, w, w') {
      QueueKeeps(hash, n, w, w');
    } else if success :| PublishedStep(w, w', success) {
      PublishedKeeps(hash, n, w, w', success);
    } else if counts, others :| ForgetStep(hash, w, w', counts, others) {
      ForgetKeeps(hash, n, w, w', counts, others);
    } else if l :| StartPublishStep(w, w', l) {
      StartPublishKeeps(hash, n, w, w', l);
    }
  }

  lemma {:induction false} StepKeeps<K(!new), V(!new)>(hash: Bucket<K, V> -> Hash, n: nat, w: World<K, V>,
                                                       w': World<K, V>)
    requires Ok(hash, n, w) && Step(hash, w, w')
    ensures Ok(hash, n, w')
  {
    if QuietStep(hash, w, w') {
      QuietKeeps(hash, n, w, w');
    } else if batch, quick, ready :| CloseStep(hash, w, w', batch, quick, ready) {
      CloseKeeps(hash, n, w, w', batch, quick, ready);
    } else if levels, shared :| RestartStep(hash, w, w', levels, shared) {
      RestartKeeps(hash, n, w, w', levels, shared);
    }
  }

  ghost predicate Behaviour<K(!new), V(!new)>(hash: Bucket<K, V> -> Hash, n: nat, ws: seq<World<K, V>>) {
    && ws != [] && Start(hash, n, ws[0])
    && forall t :: 0 <= t < |ws| - 1 ==> Step(hash, ws[t], ws[t + 1])
  }

  lemma {:induction false} StartOk<K, V>(hash: Bucket<K, V> -> Hash, n: nat, w: World<K, V>)
    requires n >= 1 && hash(map[]) == 0 && Start(hash, n, w)
    ensures Ok(hash, n, w)
  {
    forall i, h | 0 <= i < n && LevelNames(w.lcl[i], h)
      ensures h == 0 || h in w.files
    {
    }
    KeptFromLevels(w.files, w.lcl);
    assert w.lcl == SaveList(hash, {}, w.levels);
    assert HeldOutputs(hash, w) == {};
    assert forall h :: Users(map[], h) == {};
  }

  /** In every run no file that the list, its pending merges, the stored state
      or the publish queue names is ever missing, and the counts are exact. */
  lemma {:induction false} NeededFilesKept<K(!new), V(!new)>(hash: Bucket<K, V> -> Hash, n: nat, ws: seq<World<K, V>>,
      t: nat)
    requires n >= 1 && hash(map[]) == 0
    requires Behaviour(hash, n, ws) && t < |ws|
    ensures Ok(hash, n, ws[t])
  {
    if t == 0 {
      StartOk(hash, n, ws[0]);
    } else {
      NeededFilesKept(hash, n, ws, t - 1);
      StepKeeps(hash, n, ws[t - 1], ws[t]);
    }
  }

  // ----- What the clean-up leaves -----

  /** A bucket that the list, a merge, the stored state or the publish queue needs. */
  ghost predicate Needed<K, V>(hash: Bucket<K, V> -> Hash, w: World<K, V>, h: Hash) {
    || (exists i :: 0 <= i < |w.levels| && RefersTo(hash, w.levels[i], h))
    || Names(w.lcl, h) || h in HeldOutputs(hash, w)
    || exists l :: l in w.queue && Names(w.queue[l], h)
  }

  lemma {:induction false} CountedIff(counts: map<Hash, nat>, queue: map<nat, seq<SavedLevel>>, h: Hash)
    requires CountsExact(counts, queue)
    ensures h in counts <==> exists l :: l in queue && Names(queue[l], h)
  {
    assert Count(counts, h) == |Users(queue, h)|;
    if l :| l in queue && Names(queue[l], h) {
      AllBucketsAreNamed(queue[l], h);
      assert l in Users(queue, h);
    }
    if h in counts {
      assert Users(queue, h) != {};
      var l :| l in Users(queue, h);
      AllBucketsAreNamed(queue[l], h);
    }
  }

  /** Of the files it knows, forgetting leaves exactly those that are needed or in use
      elsewhere, and it touches no other file. */
  lemma {:induction false} ForgetLeaves<K, V>(hash: Bucket<K, V> -> Hash, n: nat, w: World<K, V>, w': World<K, V>,
                                              counts: map<Hash, nat>, others: set<Hash>, h: Hash)
    requires Ok(hash, n, w) && ForgetStep(hash, w, w', counts, others) && h in w.files
    ensures h in w'.files <==> h !in w.shared || Needed(hash, w, h) || h in others
  {
    ReferencedIff(hash, w.levels, w.lcl, counts, h);
    CountedIff(counts, w.queue, h);
  }

  /** Starting leaves exactly the files that are needed or were opened already. */
  lemma {:induction false} RestartLeaves<K, V>(hash: Bucket<K, V> -> Hash, w: World<K, V>, w': World<K, V>,
                                               levels: seq<Level<K, V>>, shared: set<Hash>, h: Hash)
    requires RestartStep(hash, w, w', levels, shared) && h in w.files
    ensures h in w'.files <==> Needed(hash, w', h) || h in shared
  {
    var counts :| CountsExact(counts, w.queue) &&
      w' == w.(levels := levels, finished := {}, shared := shared, lclReady := {}, counts := counts, filled := true,
               files := w.files - (w.files.Keys - Referenced(hash, levels, w.lcl, counts) - shared),
               publishing := None);
    ReferencedIff(hash, levels, w.lcl, counts, h);
    CountedIff(counts, w.queue, h);
  }

  // ----- The node and the uninterrupted run -----

  /** The buckets that a level has or refers to. */
  ghost predicate LevelHas<K, V>(l: Level<K, V>, b: Bucket<K, V>) {
    || b == l.curr || b == l.snap
    || (l.next.IsLive() && b == l.next.Outcome())
    || (l.next.LiveInputs? && (b == l.next.curr || b == l.next.snap || b in l.next.shadows))
  }

  /** The bucket is empty, or in the list, or in a file. */
  ghost predicate Occurs<K, V>(w: World<K, V>, b: Bucket<K, V>) {
    || b == map[]
    || (exists h :: h in w.files && w.files[h] == b)
    || (exists i :: 0 <= i < |w.levels| && LevelHas(w.levels[i], b))
  }

  predicate SameHash<K, V>(hash: Bucket<K, V> -> Hash, a: Bucket<K, V>, b: Bucket<K, V>) {
    hash(a) == hash(b)
  }

  /** No two buckets of the node have the same hash. */
  ghost predicate TellsApart<K(!new), V(!new)>(hash: Bucket<K, V> -> Hash, w: World<K, V>) {
    forall a, b :: Occurs(w, a) && Occurs(w, b) && SameHash(hash, a, b) ==> a == b
  }

  /** Nor, at any one time, during the run. */
  ghost predicate NoClash<K(!new), V(!new)>(hash: Bucket<K, V> -> Hash, ws: seq<World<K, V>>) {
    forall t :: 0 <= t < |ws| ==> TellsApart(hash, ws[t])
  }

  lemma {:induction false} KeptHasFile<K(!new), V(!new)>(hash: Bucket<K, V> -> Hash, w: World<K, V>, i: nat,
                                                         b: Bucket<K, V>)
    requires TellsApart(hash, w) && hash(map[]) == 0 && (forall h :: h in w.files ==> hash(w.files[h]) == h)
    requires i < |w.levels| && LevelHas(w.levels[i], b) && BucketKept(hash, w.files, b)
    ensures HasFile(w.files, hash, b)
  {
    var empty: Bucket<K, V> := map[];
    assert Occurs(w, b) && Occurs(w, empty);
    if hash(b) == 0 {
      assert SameHash(hash, b, empty);
    } else {
      assert Occurs(w, w.files[hash(b)]) && SameHash(hash, b, w.files[hash(b)]);
    }
  }

  lemma {:induction false} KeptLevelStored<K(!new), V(!new)>(hash: Bucket<K, V> -> Hash, w: World<K, V>,
      has: seq<SavedLevel>, ready: set<nat>, i: nat)
    requires TellsApart(hash, w) && hash(map[]) == 0 && (forall h :: h in w.files ==> hash(w.files[h]) == h)
    requires i < |has| == |w.levels| && has[i] == SaveLevel(hash, ready, i, w.levels[i])
    requires Kept(w.files, AllBuckets(has))
    ensures LevelStored(w.files, hash, ready, i, w.levels[i])
  {
    var l := w.levels[i];
    var f := ResolveIf(i in ready, l.next);
    KeptAtLevel(w.files, has, i, hash(l.curr));
    KeptAtLevel(w.files, has, i, hash(l.snap));
    KeptHasFile(hash, w, i, l.curr);
    KeptHasFile(hash, w, i, l.snap);
    if f.LiveOutput? {
      KeptAtLevel(w.files, has, i, hash(f.output));
      KeptHasFile(hash, w, i, f.output);
    } else if f.LiveInputs? {
      KeptAtLevel(w.files, has, i, hash(f.curr));
      KeptAtLevel(w.files, has, i, hash(f.snap));
      KeptHasFile(hash, w, i, f.curr);
      KeptHasFile(hash, w, i, f.snap);
      forall s | 0 <= s < |f.shadows|
        ensures HasFile(w.files, hash, f.shadows[s])
      {
        assert HashAll(hash, f.shadows)[s] in HashAll(hash, f.shadows);
        KeptAtLevel(w.files, has, i, hash(f.shadows[s]));
        KeptHasFile(hash, w, i, f.shadows[s]);
      }
    }
  }

  lemma {:induction false} RestartTracks<K(!new), V(!new)>(hash: Bucket<K, V> -> Hash, n: nat, w: World<K, V>,
      levels: seq<Level<K, V>>)
    requires TellsApart(hash, w) && Ok(hash, n, w) && IsRestored(w.files, w.lcl, levels)
    requires Alike(Run(n, w.hist), w.levels)
    ensures Alike(Run(n, w.hist), levels)
  {
    var r := Run(n, w.hist);
    forall i | 0 <= i < n
      ensures AlikeLevel(r[i], levels[i])
    {
      KeptLevelStored(hash, w, w.lcl, w.lclReady, i);
      RestoredLevelAlike(w.files, hash, w.lclReady, n, i, w.levels[i]);
      assert AlikeLevel(r[i], w.levels[i]);
    }
  }

  ghost predicate Tracks<K, V>(n: nat, w: World<K, V>) {
    Alike(Run(n, w.hist), w.levels)
  }

  lemma {:induction false} CloseStepTracks<K, V>(hash: Bucket<K, V> -> Hash, n: nat, w: World<K, V>, w': World<K, V>,
                                                 batch: Bucket<K, V>, quick: set<nat>, ready: set<nat>)
    requires CloseStep(hash, w, w', batch, quick, ready) && Tracks(n, w)
    ensures Tracks(n, w')
  {
    CloseTracks(n, w.hist, w.levels, batch);
  }

  lemma {:induction false} RestartStepTracks<K(!new), V(!new)>(hash: Bucket<K, V> -> Hash, n: nat, w: World<K, V>,
      w': World<K, V>, levels: seq<Level<K, V>>, shared: set<Hash>)
    requires TellsApart(hash, w) && Ok(hash, n, w) && RestartStep(hash, w, w', levels, shared) && Tracks(n, w)
    ensures Tracks(n, w')
  {
    RestartTracks(hash, n, w, levels);
  }

  lemma {:induction false} StepTracks<K(!new), V(!new)>(hash: Bucket<K, V> -> Hash, n: nat, w: World<K, V>,
                                                        w': World<K, V>)
    requires TellsApart(hash, w) && Ok(hash, n, w) && Step(hash, w, w')
    requires Tracks(n, w)
    ensures Tracks(n, w')
  {
    if QuietStep(hash, w, w') {
      QuietKeeps(hash, n, w, w');
    } else if batch, quick, ready :| CloseStep(hash, w, w', batch, quick, ready) {
      CloseStepTracks(hash, n, w, w', batch, quick, ready);
    } else if levels, shared :| RestartStep(hash, w, w', levels, shared) {
      RestartStepTracks(hash, n, w, w', levels, shared);
    }
  }

  lemma {:induction false} StartTracks<K, V>(hash: Bucket<K, V> -> Hash, n: nat, w: World<K, V>)
    requires Start(hash, n, w)
    ensures Tracks(n, w)
  {
  }

  lemma {:induction false} RunTracked<K(!new), V(!new)>(hash: Bucket<K, V> -> Hash, n: nat, ws: seq<World<K, V>>,
                                                        t: nat)
    requires n >= 1 && hash(map[]) == 0 && NoClash(hash, ws)
    requires Behaviour(hash, n, ws) && t < |ws|
    ensures Tracks(n, ws[t])
  {
    if t == 0 {
      StartTracks(hash, n, ws[0]);
    } else {
      RunTracked(hash, n, ws, t - 1);
      NeededFilesKept(hash, n, ws, t - 1);
      StepTracks(hash, n, ws[t - 1], ws[t]);
    }
  }

  /** Whatever restarts, publications and clean-ups have happened, the list has
      the buckets of a node that ran without a break, and so denotes the plain
      map of everything closed. */
  lemma {:induction false} NodeMatchesUninterruptedRun<K(!new), V(!new)>(hash: Bucket<K, V> -> Hash, n: nat,
      ws: seq<World<K, V>>, t: nat)
    requires n >= 1 && hash(map[]) == 0 && NoClash(hash, ws)
    requires Behaviour(hash, n, ws) && t < |ws|
    ensures var w, r := ws[t], Run(n, ws[t].hist);
            && |w.levels| == n
            && (forall i :: 0 <= i < n ==> w.levels[i].curr == r[i].curr && w.levels[i].snap == r[i].snap)
            && FlatView(w.levels) == ApplyAll(w.hist)
  {
    var w, r := ws[t], Run(n, ws[t].hist);
    RunTracked(hash, n, ws, t);
    forall i | 0 <= i < n
      ensures w.levels[i].curr == r[i].curr && w.levels[i].snap == r[i].snap
    {
      assert AlikeLevel(r[i], w.levels[i]);
    }
    AlikeFlatView(r, w.levels);
    FlatViewOfRun(n, w.hist);
  }

  predicate Found<K, V>(files: Store<K, V>, h: Hash) {
    h == 0 || h in files
  }

  lemma {:induction false} LevelFound<K, V>(files: Store<K, V>, n: nat, i: nat, s: SavedLevel)
    requires Found(files, s.curr) && Found(files, s.snap) && !s.next.SavedUnexpected?
    requires s.next.SavedOutput? ==> Found(files, s.next.output)
    requires s.next.SavedInputs? ==> Found(files, s.next.curr) && Found(files, s.next.snap)
    requires s.next.SavedInputs? ==> forall j :: 0 <= j < |s.next.shadows| ==> Found(files, s.next.shadows[j])
    ensures RestoreLevel(files, n, i, s).Some?
  {
  }

  /** A restart never fails for want of a file. */
  lemma {:induction false} RestartNeverBlocked<K, V>(hash: Bucket<K, V> -> Hash, n: nat, w: World<K, V>, i: nat)
    requires Ok(hash, n, w) && i < n
    ensures RestoreLevel(w.files, n, i, w.lcl[i]).Some?
  {
    var s := w.lcl[i];
    NamedFound(w.files, w.lcl, i);
    LevelFound(w.files, n, i, s);
  }

  lemma {:induction false} NamedFound<K, V>(files: Store<K, V>, has: seq<SavedLevel>, i: nat)
    requires Kept(files, AllBuckets(has)) && i < |has|
    ensures var s := has[i];
            && Found(files, s.curr) && Found(files, s.snap)
            && (s.next.SavedOutput? ==> Found(files, s.next.output))
            && (s.next.SavedInputs? ==> Found(files, s.next.curr) && Found(files, s.next.snap))
            && (s.next.SavedInputs? ==> forall j :: 0 <= j < |s.next.shadows| ==> Found(files, s.next.shadows[j]))
  {
    var s := has[i];
    KeptAtLevel(files, has, i, s.curr);
    KeptAtLevel(files, has, i, s.snap);
    var all := SavedHashes(s.next);
    forall j | 0 <= j < |all|
      ensures Found(files, all[j])
    {
      KeptAtLevel(files, has, i, all[j]);
    }
    if s.next.SavedInputs? {
      assert all[0] == s.next.curr && all[1] == s.next.snap;
      forall j | 0 <= j < |s.next.shadows|
        ensures Found(files, s.next.shadows[j])
      {
        assert all[j + 2] == s.next.shadows[j];
      }
    } else if s.next.SavedOutput? {
      assert all[0] == s.next.output;
    }
  }
}
