/** A node that has been away: it applies the buckets of a later ledger, assumes its
    bucket list, takes its header and goes on closing ledgers
    (src/catchup/ApplyBucketsWork.cpp, src/catchup/CatchupWork.cpp and historyCaughtup in
    src/ledger/LedgerManagerImpl.cpp). */
module Rejoin {
  import opened LedgerTypes
  import T = TxnStack
  import opened LedgerTxn
  import B = BucketList
  import R = BucketListRuns
  import F = FutureBucket
  import S = Restart
  import A = ApplyBuckets
  import W = ApplyBucketsWork
  import C = LedgerClose

  type Batch = C.Batch
  type Level = A.Level

  // ----- The header -----

  lemma {:induction false} HeaderSteps(s: T.Stack, h: T.Header)
    requires s.frames == []
    ensures T.Step(C.Started(s, h, true), 1, T.Op.Commit).0 == s.(header := h)
  {
    var f := T.Child(s.store, h, true);
    assert T.Stamped(f) == s.store;
  }

  /** historyCaughtup with APPLIED_BUCKETS: the root takes the verified header. */
  method TakeHeader(l: LedgerTxns, header: T.Header)
    requires l.Valid() && l.txns == []
    modifies l
    ensures l.Valid() && l.txns == [] && l.store == old(l.store) && l.header == header
  {
    HeaderSteps(l.Abs(), header);
    C.OpenLedger(l, header, true);
    var r := l.Perform(1, T.Op.Commit);
    assert |l.txns| == |l.Abs().frames|;
  }

  // ----- Catching up by buckets -----

  /** The saved state of the target, and the files for it. */
  ghost predicate StateAt(task: A.Task, has: seq<S.SavedLevel>, store: F.Store<LedgerKey, LedgerEntry>,
                          ready: set<nat>) {
    && has == S.SaveList(task.hash, ready, task.target)
    && forall i :: 0 <= i < |task.target| ==> S.LevelStored(store, task.hash, ready, i, task.target[i])
  }

  lemma {:induction false} RestoredAlike(n: nat, hist: seq<Batch>, task: A.Task, has: seq<S.SavedLevel>,
                                         store: F.Store<LedgerKey, LedgerEntry>, ready: set<nat>, levels: seq<Level>)
    requires task.target == B.Run(n, hist) && StateAt(task, has, store, ready) && S.IsRestored(store, has, levels)
    ensures S.Alike(B.Run(n, hist), levels)
  {
    forall i | 0 <= i < n
      ensures S.AlikeLevel(B.Run(n, hist)[i], levels[i])
    {
      S.RunSettled(n, hist, i);
      S.RestoredLevelAlike(store, task.hash, ready, n, i, task.target[i]);
    }
  }

  method AssumeTarget(list: B.List<LedgerKey, LedgerEntry>, task: A.Task, has: seq<S.SavedLevel>,
                      store: F.Store<LedgerKey, LedgerEntry>, ghost ready: set<nat>, ghost hist: seq<Batch>)
    requires |list.levels| == |task.target| && task.target == B.Run(|task.target|, hist)
    requires StateAt(task, has, store, ready)
    modifies list
    ensures |list.levels| == |task.target| && S.Alike(B.Run(|task.target|, hist), list.levels)
  {
    var ok := S.AssumeState(list, has, store);
    if !ok {
      var i :| 0 <= i < |has| && S.RestoreLevel(store, |has|, i, has[i]).None?;
      S.RestoreSucceeds(|has|, hist, task.hash, ready, store, i);
      assert false;
    }
    RestoredAlike(|task.target|, hist, task, has, store, ready, list.levels);
  }

  /** The list becomes the target's in any case. The node is then where one that
      never left would be if and only if every leftover is mentioned by an applied
      bucket; it is enough that it had all ledgers of the skipped buckets. */
  method CatchUp(l: LedgerTxns, list: B.List<LedgerKey, LedgerEntry>, task: A.Task, files: seq<W.Files>,
                 has: seq<S.SavedLevel>, store: F.Store<LedgerKey, LedgerEntry>, header: T.Header,
                 ghost ready: set<nat>, ghost hist: seq<Batch>, ghost c: nat)
    requires c <= |hist| && C.InStep(l, list, hist[..c]) && header.ledgerSeq == |hist|
    requires A.Fits(task, hist, c) && |list.levels| == |task.target|
    requires W.FilesHold(files, task.target) && StateAt(task, has, store, ready)
    modifies l, list
    ensures l.Valid() && l.txns == [] && l.header == header && |list.levels| == |task.target|
    ensures S.Alike(B.Run(|task.target|, hist), list.levels)
    ensures A.SkippedUpTo(task, |task.target|) <= c ==> C.InStep(l, list, hist)
    ensures A.HashTells(task) ==> (C.InStep(l, list, hist) <==> A.LeftoversMentioned(task, old(l.store)))
  {
    W.ApplyAll(l, task, files, hist, c);
    AssumeTarget(list, task, has, store, ready, hist);
    TakeHeader(l, header);
    R.FlatViewOfRun(|task.target|, hist);
  }

  /** After catching up the node closes ledgers as one that never left: the same
      batches, hence the same store, header and buckets, at every later ledger. */
  method CatchUpAndClose(l: LedgerTxns, list: B.List<LedgerKey, LedgerEntry>, task: A.Task, files: seq<W.Files>,
                         has: seq<S.SavedLevel>, store: F.Store<LedgerKey, LedgerEntry>, header: T.Header,
                         inputs: seq<C.Input>, ghost ready: set<nat>, ghost hist: seq<Batch>, ghost c: nat)
    returns (ghost later: seq<Batch>)
    requires c <= |hist| && C.InStep(l, list, hist[..c]) && header.ledgerSeq == |hist|
    requires A.Fits(task, hist, c) && |list.levels| == |task.target|
    requires W.FilesHold(files, task.target) && StateAt(task, has, store, ready)
    requires C.AllApply(inputs, |hist| + 1)
    requires A.SkippedUpTo(task, |task.target|) <= c || (A.HashTells(task) && A.LeftoversMentioned(task, l.store))
    modifies l, list
    ensures later == C.Closes(T.Stack(R.ApplyAll(hist), header, []), |hist| + 1, inputs)
    ensures C.InStep(l, list, hist + later) && l.store == R.ApplyAll(hist + later) == R.FlatView(list.levels)
    ensures A.SameBuckets(list.levels, B.Run(|task.target|, hist + later))
  {
    CatchUp(l, list, task, files, has, store, header, ready, hist, c);
    later := C.CloseMore(l, list, inputs, hist);
    C.InStepFlat(list.levels, hist + later);
    AlikeSame(B.Run(|task.target|, hist + later), list.levels);
  }

  lemma {:induction false} AlikeSame(a: seq<Level>, b: seq<Level>)
    requires S.Alike(a, b)
    ensures A.SameBuckets(b, a)
  {
    forall i | 0 <= i < |a|
      ensures b[i].curr == a[i].curr && b[i].snap == a[i].snap
    {
      assert S.AlikeLevel(a[i], b[i]);
    }
  }
}
