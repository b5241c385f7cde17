/** Bringing the store to the state of another ledger by applying buckets
    (src/catchup/ApplyBucketsWork.cpp), from the deepest level to the newest,
    skipping the deep levels that the local list already has. */
module ApplyBuckets {
  import opened BucketFile
  import opened LedgerTypes
  import opened LevelArithmetic
  import LevelSizes
  import T = TxnStack
  import opened LedgerTxn
  import B = BucketList
  import R = BucketListRuns

  type Batch = Bucket<LedgerKey, LedgerEntry>
  type Level = B.Level<LedgerKey, LedgerEntry>

  // ----- Applying levels -----

  /** Levels i - 1 down to 0, in each snap before curr. */
  function ApplyDown(m: T.Entries, levels: seq<Level>, i: nat): (r: T.Entries)
    requires i <= |levels|
    decreases i
  {
    if i == 0 then m
    else ApplyDown(R.ApplyBatch(R.ApplyBatch(m, levels[i - 1].snap), levels[i - 1].curr), levels, i - 1)
  }

  /** The first hit for a key in levels 0 to i - 1. */
  function Above(levels: seq<Level>, i: nat, k: LedgerKey): (r: Option<Slot<LedgerEntry>>)
    requires i <= |levels|
  {
    if i == 0 then None
    else
      var higher := Above(levels, i - 1, k);
      if higher.Some? then higher
      else if k in levels[i - 1].curr then Some(levels[i - 1].curr[k])
      else if k in levels[i - 1].snap then Some(levels[i - 1].snap[k])
      else None
  }

  function Seen(s: Option<Slot<LedgerEntry>>, otherwise: Option<LedgerEntry>): (r: Option<LedgerEntry>) {
    match s
    case None => otherwise
    case Some(Live(v)) => Some(v)
    case Some(Dead) => None
  }

  lemma {:induction false} BatchSeen(m: T.Entries, b: Batch, k: LedgerKey)
    ensures T.Lookup(R.ApplyBatch(m, b), k) == Seen(R.Look(b, k), T.Lookup(m, k))
  {
  }

  lemma {:induction false} ApplyDownSeen(m: T.Entries, levels: seq<Level>, i: nat, k: LedgerKey)
    requires i <= |levels|
    ensures T.Lookup(ApplyDown(m, levels, i), k) == Seen(Above(levels, i, k), T.Lookup(m, k))
    decreases i
  {
    if i > 0 {
      var m' := R.ApplyBatch(m, levels[i - 1].snap);
      BatchSeen(m, levels[i - 1].snap, k);
      BatchSeen(m', levels[i - 1].curr, k);
      ApplyDownSeen(R.ApplyBatch(m', levels[i - 1].curr), levels, i - 1, k);
    }
  }

  /** A hit above is the hit of the whole list. */
  lemma {:induction false} AboveIsLookup(levels: seq<Level>, i: nat, k: LedgerKey)
    requires i <= |levels|
    ensures R.Lookup(levels, 0, k) == if Above(levels, i, k).Some? then Above(levels, i, k) else R.Lookup(levels, i, k)
  {
    if i > 0 {
      AboveIsLookup(levels, i - 1, k);
    }
  }

  lemma {:induction false} FlatSeen(levels: seq<Level>, k: LedgerKey)
    ensures T.Lookup(R.FlatView(levels), k) == Seen(R.Lookup(levels, 0, k), None)
  {
    R.LookupInKeys(levels, 0, k);
  }

  // ----- Ledger stamps -----

  /** Every live entry carries the number of the ledger whose batch it is in. */
  ghost predicate StampedHist(hist: seq<Batch>) {
    forall t, k :: 0 <= t < |hist| && k in hist[t] && hist[t][k].Live? ==> hist[t][k].value.lastModified == t + 1
  }

  lemma {:induction false} NewestStamp(hist: seq<Batch>, lo: nat, hi: nat, k: LedgerKey)
    requires StampedHist(hist) && lo <= hi <= |hist|
    ensures var s := R.Newest(hist, lo, hi, k);
            s.Some? && s.value.Live? ==> lo < s.value.value.lastModified <= hi
  {
    if lo < hi && k !in hist[hi - 1] {
      NewestStamp(hist, lo, hi - 1, k);
    }
  }

  /** Of the state after ledger c, what is older than a boundary is as it was at
      the boundary, for keys not changed since. */
  lemma {:induction false} OlderKept(hist: seq<Batch>, b: nat, k: LedgerKey)
    requires StampedHist(hist) && b <= |hist|
    requires R.Newest(hist, b, |hist|, k).None?
    ensures T.Lookup(Older(R.ApplyAll(hist), b + 1), k) == T.Lookup(R.ApplyAll(hist), k)
            == Seen(R.Newest(hist, 0, b, k), None)
  {
    R.ApplyAllIsNewest(hist, k);
    R.NewestSplit(hist, 0, b, |hist|, k);
    NewestStamp(hist, 0, b, k);
  }

  lemma {:induction false} NewestOfPrefix(hist: seq<Batch>, c: nat, lo: nat, hi: nat, k: LedgerKey)
    requires hi <= c <= |hist|
    ensures R.Newest(hist[..c], lo, hi, k) == R.Newest(hist, lo, hi, k)
  {
    if lo < hi && k !in hist[hi - 1] {
      NewestOfPrefix(hist, c, lo, hi - 1, k);
    }
  }

  // ----- Why it is enough to delete and to apply from there -----

  /** A key that no level above i has was not changed by their ledgers. */
  lemma {:induction false} SilentAbove(hist: seq<Batch>, levels: seq<Level>, rs: seq<R.Ranges>, i: nat, k: LedgerKey)
    requires R.ListCovers(hist, levels, rs) && R.Chained(rs, |hist|) && i < |rs| && Above(levels, i, k).None?
    ensures R.Newest(hist, rs[i].currHi, |hist|, k).None?
  {
    if i > 0 {
      SilentAbove(hist, levels, rs, i - 1, k);
      R.LevelAnswers(hist, levels[i - 1], rs[i - 1], k);
    }
  }

  lemma {:induction false} SilentCurr(hist: seq<Batch>, levels: seq<Level>, rs: seq<R.Ranges>, i: nat, k: LedgerKey)
    requires R.ListCovers(hist, levels, rs) && R.Chained(rs, |hist|) && i < |rs| - 1 && Above(levels, i, k).None?
             && k !in levels[i].curr
    ensures R.Newest(hist, rs[i].currLo, |hist|, k).None?
  {
    SilentAbove(hist, levels, rs, i, k);
    assert R.CoversKey(levels[i].curr, hist, rs[i].currLo, rs[i].currHi, rs[i].last, k);
    R.NewestSplit(hist, rs[i].currLo, rs[i].currHi, |hist|, k);
  }

  /** The last level has no snap. */
  lemma {:induction false} LastSnapEmpty(hist: seq<Batch>, levels: seq<Level>, rs: seq<R.Ranges>, k: LedgerKey)
    requires R.ListCovers(hist, levels, rs) && R.Chained(rs, |hist|)
    ensures k !in levels[|rs| - 1].snap
  {
    var r := rs[|rs| - 1];
    assert R.CoversKey(levels[|rs| - 1].snap, hist, r.snapLo, r.currLo, false, k);
  }

  /** A key unchanged since ledger b is the same in the old state, cut at b, and
      in the new one. */
  lemma {:induction false} UnchangedSince(hist: seq<Batch>, c: nat, b: nat, k: LedgerKey)
    requires StampedHist(hist) && b <= c <= |hist| && R.Newest(hist, b, |hist|, k).None?
    ensures T.Lookup(Older(R.ApplyAll(hist[..c]), b + 1), k) == T.Lookup(R.ApplyAll(hist), k)
  {
    R.NewestSplit(hist, b, c, |hist|, k);
    NewestOfPrefix(hist, c, b, c, k);
    NewestOfPrefix(hist, c, 0, b, k);
    PrefixStamped(hist, c);
    OlderKept(hist[..c], b, k);
    OlderKept(hist, b, k);
  }

  lemma {:induction false} PrefixStamped(hist: seq<Batch>, c: nat)
    requires StampedHist(hist) && c <= |hist|
    ensures StampedHist(hist[..c])
  {
  }

  lemma {:induction false} NothingOlder(hist: seq<Batch>, c: nat, k: LedgerKey)
    requires StampedHist(hist) && c <= |hist|
    ensures k !in Older(R.ApplyAll(hist[..c]), 1)
  {
    PrefixStamped(hist, c);
    R.ApplyAllIsNewest(hist[..c], k);
    NewestStamp(hist[..c], 0, c, k);
  }

  lemma {:induction false} FlatIsAll(hist: seq<Batch>, levels: seq<Level>, rs: seq<R.Ranges>, k: LedgerKey)
    requires R.ListCovers(hist, levels, rs) && R.Chained(rs, |hist|)
    ensures T.Lookup(R.FlatView(levels), k) == T.Lookup(R.ApplyAll(hist), k)
  {
    R.KeyAnswered(hist, levels, rs, k);
  }

  /** Starting with the snap of level j. */
  lemma {:induction false} FromSnap(hist: seq<Batch>, levels: seq<Level>, rs: seq<R.Ranges>, c: nat, j: nat, b: nat,
                                    k: LedgerKey)
    requires R.ListCovers(hist, levels, rs) && R.Chained(rs, |hist|) && StampedHist(hist) && j < |rs| && c <= |hist|
    requires b == (if j == |rs| - 1 then 0 else rs[j + 1].currHi) && b <= c
    ensures T.Lookup(ApplyDown(Older(R.ApplyAll(hist[..c]), b + 1), levels, j + 1), k)
            == T.Lookup(R.FlatView(levels), k)
  {
    ApplyDownSeen(Older(R.ApplyAll(hist[..c]), b + 1), levels, j + 1, k);
    AboveIsLookup(levels, j + 1, k);
    FlatSeen(levels, k);
    if Above(levels, j + 1, k).None? {
      if j == |rs| - 1 {
        NothingOlder(hist, c, k);
      } else {
        SilentAbove(hist, levels, rs, j + 1, k);
        UnchangedSince(hist, c, b, k);
        FlatIsAll(hist, levels, rs, k);
      }
    }
  }

  /** Starting with the curr of level j. */
  lemma {:induction false} FromCurr(hist: seq<Batch>, levels: seq<Level>, rs: seq<R.Ranges>, c: nat, j: nat, b: nat,
                                    k: LedgerKey)
    requires R.ListCovers(hist, levels, rs) && R.Chained(rs, |hist|) && StampedHist(hist) && j < |rs| && c <= |hist|
    requires b == rs[j].currLo && b <= c
    ensures T.Lookup(ApplyDown(R.ApplyBatch(Older(R.ApplyAll(hist[..c]), b + 1), levels[j].curr), levels, j), k)
            == T.Lookup(R.FlatView(levels), k)
  {
    var m := Older(R.ApplyAll(hist[..c]), b + 1);
    BatchSeen(m, levels[j].curr, k);
    ApplyDownSeen(R.ApplyBatch(m, levels[j].curr), levels, j, k);
    AboveIsLookup(levels, j, k);
    FlatSeen(levels, k);
    if Above(levels, j, k).None? && k !in levels[j].curr {
      if j == |rs| - 1 {
        NothingOlder(hist, c, k);
        LastSnapEmpty(hist, levels, rs, k);
        assert R.Lookup(levels, j + 1, k).None?;
      } else {
        SilentCurr(hist, levels, rs, j, k);
        UnchangedSince(hist, c, b, k);
        FlatIsAll(hist, levels, rs, k);
      }
    }
  }

  // ----- Empty ranges -----

  lemma {:induction false} MaskMono(c: nat, k: nat, m: nat)
    requires c <= k && m > 0
    ensures Mask(c, m) <= Mask(k, m)
  {
    if c >= m {
      MaskMono(c - m, k - m, m);
    }
  }

  lemma {:induction false} LagShort(level: nat)
    ensures SnapLag(level) < LevelHalf(level)
  {
  }

  lemma {:induction false} CurrTopMono(n: nat, c: nat, k: nat, j: nat)
    requires c <= k && CurrTop(n, k, j) == 0
    ensures CurrTop(n, c, j) == 0
  {
    if 0 < j < n {
      MaskMono(c, k, LevelHalf(j - 1));
      LagShort(j - 1);
    }
  }

  /** A level's curr that holds no ledger held none before. */
  lemma {:induction false} EmptyCurrBefore(n: nat, c: nat, k: nat, j: nat)
    requires 0 < k && c <= k && j < n && CurrTop(n, k, j) == SnapTop(n, k, j)
    ensures CurrTop(n, c, j) == SnapTop(n, c, j)
  {
    if 0 < j < n - 1 && Mask(k, LevelHalf(j)) != 0 {
      CoarserSpill(k, j);
      MaskZeroOrHalf(k, j);
      assert false;
    }
    if j > 0 {
      CurrTopMono(n, c, k, j);
      TopsDescend(n, c, j);
    }
  }

  lemma {:induction false} EmptySnapBefore(n: nat, c: nat, k: nat, j: nat)
    requires c <= k && j < n && SnapTop(n, k, j) == CurrTop(n, k, j + 1)
    ensures SnapTop(n, c, j) == CurrTop(n, c, j + 1)
  {
    if j < n - 1 {
      LevelSizes.SnapFull(k, j);
      LevelSizes.SnapFull(c, j);
      MaskMono(c, k, LevelHalf(j));
      MaskMono(c, k, LevelSize(j));
      LagShort(j);
      MaskZeroOrHalf(k, j);
    }
  }

  // ----- Where the walk starts applying -----

  /** What the walk is given: the target's ledger and buckets, the local list. */
  datatype Task = Task(hash: Batch -> nat, target: seq<Level>, local: seq<Level>, ledger: nat)
  {
    predicate SnapDiffers(i: nat)
      requires i < |target| == |local|
    {
      hash(target[i].snap) != hash(local[i].snap)
    }

    predicate CurrDiffers(i: nat)
      requires i < |target| == |local|
    {
      hash(target[i].curr) != hash(local[i].curr)
    }
  }

  ghost predicate SameBuckets(a: seq<Level>, b: seq<Level>) {
    |a| == |b| && forall i :: 0 <= i < |a| ==> a[i].curr == b[i].curr && a[i].snap == b[i].snap
  }

  /** The local node is at ledger c of the history that the target is the end
      of. */
  ghost predicate Fits(t: Task, hist: seq<Batch>, c: nat) {
    && |t.target| == |t.local| >= 2 && t.ledger == |hist| > 0 && c <= |hist| && StampedHist(hist)
    && t.target == B.Run(|t.target|, hist) && SameBuckets(t.local, B.Run(|t.target|, hist[..c]))
  }

  lemma {:induction false} EmptyRange(b: Batch, hist: seq<Batch>, at: nat, dropDead: bool)
    requires R.Covers(b, hist, at, at, dropDead)
    ensures b == map[]
  {
    forall k: LedgerKey
      ensures k !in b
    {
      assert R.CoversKey(b, hist, at, at, dropDead, k);
    }
  }

  /** A bucket that differs from the local one has absorbed some ledger. */
  lemma {:induction false} DifferingCurr(t: Task, hist: seq<Batch>, c: nat, j: nat)
    requires Fits(t, hist, c) && j < |t.target| && t.CurrDiffers(j)
    ensures SnapTop(|t.target|, t.ledger, j) < CurrTop(|t.target|, t.ledger, j)
  {
    var n := |t.target|;
    TopsDescend(n, t.ledger, j);
    if CurrTop(n, t.ledger, j) == SnapTop(n, t.ledger, j) {
      EmptyCurrBefore(n, c, t.ledger, j);
      CurrCovered(n, hist, j);
      CurrCovered(n, hist[..c], j);
      EmptyRange(t.target[j].curr, hist, CurrTop(n, t.ledger, j), j == n - 1);
      EmptyRange(t.local[j].curr, hist[..c], CurrTop(n, c, j), j == n - 1);
      assert false;
    }
  }

  lemma {:induction false} CurrCovered(n: nat, hist: seq<Batch>, j: nat)
    requires j < n
    ensures R.Covers(B.Run(n, hist)[j].curr, hist, SnapTop(n, |hist|, j), CurrTop(n, |hist|, j), j == n - 1)
    ensures R.Covers(B.Run(n, hist)[j].snap, hist, CurrTop(n, |hist|, j + 1), SnapTop(n, |hist|, j), false)
  {
    R.RunOk(n, hist);
    var rs := R.AllRanges(n, |hist|);
    assert rs[j] == R.RangesOf(n, |hist|, j);
    assert R.LevelCovers(hist, B.Run(n, hist)[j], rs[j]);
  }

  lemma {:induction false} DifferingSnap(t: Task, hist: seq<Batch>, c: nat, j: nat)
    requires Fits(t, hist, c) && j < |t.target| && t.SnapDiffers(j)
    ensures CurrTop(|t.target|, t.ledger, j + 1) < SnapTop(|t.target|, t.ledger, j)
  {
    var n := |t.target|;
    TopsDescend(n, t.ledger, j);
    if SnapTop(n, t.ledger, j) == CurrTop(n, t.ledger, j + 1) {
      EmptySnapBefore(n, c, t.ledger, j);
      CurrCovered(n, hist, j);
      CurrCovered(n, hist[..c], j);
      EmptyRange(t.target[j].snap, hist, SnapTop(n, t.ledger, j), false);
      EmptyRange(t.local[j].snap, hist[..c], SnapTop(n, c, j), false);
      assert false;
    }
  }

  lemma {:induction false} SameMap(a: T.Entries, b: T.Entries)
    requires forall k :: T.Lookup(a, k) == T.Lookup(b, k)
    ensures a == b
  {
    forall k
      ensures k in a <==> k in b
      ensures k in a ==> a[k] == b[k]
    {
      assert T.Lookup(a, k) == T.Lookup(b, k);
    }
  }

  lemma {:induction false} TargetCovered(t: Task, hist: seq<Batch>, c: nat)
    requires Fits(t, hist, c)
    ensures var rs := R.AllRanges(|t.target|, t.ledger); R.ListCovers(hist, t.target, rs) && R.Chained(rs, |hist|)
  {
    R.RunOk(|t.target|, hist);
    R.RangesChained(|t.target|, t.ledger);
  }

  lemma {:induction false} SnapGivesTarget(hist: seq<Batch>, levels: seq<Level>, rs: seq<R.Ranges>, c: nat, j: nat,
                                           b: nat)
    requires R.ListCovers(hist, levels, rs) && R.Chained(rs, |hist|) && StampedHist(hist) && j < |rs| && c <= |hist|
    requires b == (if j == |rs| - 1 then 0 else rs[j + 1].currHi) && b <= c
    ensures ApplyDown(Older(R.ApplyAll(hist[..c]), b + 1), levels, j + 1) == R.FlatView(levels)
  {
    var m, goal := ApplyDown(Older(R.ApplyAll(hist[..c]), b + 1), levels, j + 1), R.FlatView(levels);
    forall k
      ensures T.Lookup(m, k) == T.Lookup(goal, k)
    {
      FromSnap(hist, levels, rs, c, j, b, k);
    }
    SameMap(m, goal);
  }

  lemma {:induction false} CurrGivesTarget(hist: seq<Batch>, levels: seq<Level>, rs: seq<R.Ranges>, c: nat, j: nat,
                                           b: nat)
    requires R.ListCovers(hist, levels, rs) && R.Chained(rs, |hist|) && StampedHist(hist) && j < |rs| && c <= |hist|
    requires b == rs[j].currLo && b <= c
    ensures ApplyDown(R.ApplyBatch(Older(R.ApplyAll(hist[..c]), b + 1), levels[j].curr), levels, j)
            == R.FlatView(levels)
  {
    var m, goal := ApplyDown(R.ApplyBatch(Older(R.ApplyAll(hist[..c]), b + 1), levels[j].curr), levels, j),
      R.FlatView(levels);
    forall k
      ensures T.Lookup(m, k) == T.Lookup(goal, k)
    {
      FromCurr(hist, levels, rs, c, j, b, k);
    }
    SameMap(m, goal);
  }

  lemma {:induction false} RangeEnds(n: nat, k: nat, j: nat)
    requires j < n
    ensures var rs := R.AllRanges(n, k);
            && rs[j].currLo == SnapTop(n, k, j)
            && CurrTop(n, k, j + 1) == if j == n - 1 then 0 else rs[j + 1].currHi
  {
    assert R.AllRanges(n, k)[j] == R.RangesOf(n, k, j);
    assert j < n - 1 ==> R.AllRanges(n, k)[j + 1] == R.RangesOf(n, k, j + 1);
  }

  /** Deleting from the first differing snap on and applying from there gives
      the target's state. */
  lemma {:induction false} StartAtSnap(t: Task, hist: seq<Batch>, c: nat, j: nat, b: nat, kept: T.Entries,
                                       goal: T.Entries)
    requires Fits(t, hist, c) && j < |t.target| && b == CurrTop(|t.target|, t.ledger, j + 1) <= c
    requires kept == Older(R.ApplyAll(hist[..c]), b + 1) && goal == R.FlatView(t.target)
    ensures ApplyDown(kept, t.target, j + 1) == goal
  {
    TargetCovered(t, hist, c);
    RangeEnds(|t.target|, t.ledger, j);
    SnapGivesTarget(hist, t.target, R.AllRanges(|t.target|, t.ledger), c, j, b);
  }

  lemma {:induction false} StartAtCurr(t: Task, hist: seq<Batch>, c: nat, j: nat, b: nat, kept: T.Entries,
                                       goal: T.Entries)
    requires Fits(t, hist, c) && j < |t.target| && b == SnapTop(|t.target|, t.ledger, j) <= c
    requires kept == Older(R.ApplyAll(hist[..c]), b + 1) && goal == R.FlatView(t.target)
    ensures ApplyDown(R.ApplyBatch(kept, t.target[j].curr), t.target, j) == goal
  {
    TargetCovered(t, hist, c);
    RangeEnds(|t.target|, t.ledger, j);
    CurrGivesTarget(hist, t.target, R.AllRanges(|t.target|, t.ledger), c, j, b);
  }

  // ----- The whole walk -----

  /** The first ledger that the target's snap(j) holds, as the program computes
      it. */
  function OldestInSnap(t: Task, j: nat): (r: nat) {
    var n := |t.target|;
    if SnapTop(n, t.ledger, j) == CurrTop(n, t.ledger, j + 1) then LevelSizes.UINT32_MAX
      else CurrTop(n, t.ledger, j + 1) + 1
  }

  function OldestInCurr(t: Task, j: nat): (r: nat) {
    var n := |t.target|;
    if CurrTop(n, t.ledger, j) == SnapTop(n, t.ledger, j) then LevelSizes.UINT32_MAX else SnapTop(n, t.ledger, j) + 1
  }

  datatype Start = AtSnap(level: nat) | AtCurr(level: nat) | Nowhere

  /** The first bucket that differs, from level i - 1 down, snap before curr. */
  function FirstDiffering(t: Task, i: nat): (s: Start)
    requires i <= |t.target| == |t.local|
    ensures s.AtSnap? ==> s.level < i && t.SnapDiffers(s.level)
    ensures s.AtCurr? ==> s.level < i && t.CurrDiffers(s.level)
  {
    if i == 0 then Nowhere
    else if t.SnapDiffers(i - 1) then AtSnap(i - 1)
    else if t.CurrDiffers(i - 1) then AtCurr(i - 1)
    else FirstDiffering(t, i - 1)
  }

  /** Deleting and applying from a start on. */
  function WalkAt(t: Task, m: T.Entries, s: Start): (r: T.Entries)
    requires !s.Nowhere? ==> s.level < |t.target|
  {
    match s
    case Nowhere => m
    case AtSnap(j) => ApplyDown(Older(m, OldestInSnap(t, j)), t.target, j + 1)
    case AtCurr(j) => ApplyDown(R.ApplyBatch(Older(m, OldestInCurr(t, j)), t.target[j].curr), t.target, j)
  }

  /** What the walk makes of a store, with levels i - 1 down to 0 to look at: where
      the first bucket differs, deleting and applying start. */
  function Walk(t: Task, m: T.Entries, i: nat): (r: T.Entries)
    requires i <= |t.target| == |t.local|
  {
    WalkAt(t, m, FirstDiffering(t, i))
  }

  /** Where the buckets skipped before a start end. */
  function SkippedBefore(t: Task, s: Start): (b: nat) {
    match s
    case Nowhere => t.ledger
    case AtSnap(j) => CurrTop(|t.target|, t.ledger, j + 1)
    case AtCurr(j) => SnapTop(|t.target|, t.ledger, j)
  }

  /** The newest ledger absorbed by the buckets that the walk skips. */
  function SkippedUpTo(t: Task, i: nat): (b: nat)
    requires i <= |t.target| == |t.local|
  {
    SkippedBefore(t, FirstDiffering(t, i))
  }

  /** Each bucket that the walk skips absorbed the same ledgers locally as in
      the target. */
  predicate SkippedSame(t: Task, c: nat, i: nat)
    requires i <= |t.target| == |t.local|
  {
    var n := |t.target|;
    i == 0 || t.SnapDiffers(i - 1) ||
    (&& SnapTop(n, t.ledger, i - 1) == SnapTop(n, c, i - 1)
     && (t.CurrDiffers(i - 1) || (CurrTop(n, t.ledger, i - 1) == CurrTop(n, c, i - 1) && SkippedSame(t, c, i - 1))))
  }

  lemma {:induction false} SkippedSameSuffices(t: Task, c: nat, i: nat)
    requires i <= |t.target| == |t.local| && SkippedSame(t, c, i)
    requires CurrTop(|t.target|, t.ledger, i) == CurrTop(|t.target|, c, i)
    ensures SkippedUpTo(t, i) <= c
  {
    if i > 0 && !t.SnapDiffers(i - 1) && !t.CurrDiffers(i - 1) {
      SkippedSameSuffices(t, c, i - 1);
    }
  }

  lemma {:induction false} OldestInDifferingSnap(t: Task, hist: seq<Batch>, c: nat, i: nat)
    requires Fits(t, hist, c) && i < |t.target| && t.SnapDiffers(i)
    ensures OldestInSnap(t, i) == CurrTop(|t.target|, t.ledger, i + 1) + 1
  {
    DifferingSnap(t, hist, c, i);
  }

  lemma {:induction false} OldestInDifferingCurr(t: Task, hist: seq<Batch>, c: nat, i: nat)
    requires Fits(t, hist, c) && i < |t.target| && t.CurrDiffers(i)
    ensures OldestInCurr(t, i) == SnapTop(|t.target|, t.ledger, i) + 1
  {
    DifferingCurr(t, hist, c, i);
  }

  lemma {:induction false} WalkAtSnap(t: Task, hist: seq<Batch>, c: nat, i: nat, oldest: nat, m: T.Entries,
                                      goal: T.Entries)
    requires Fits(t, hist, c) && i < |t.target| && t.SnapDiffers(i) && CurrTop(|t.target|, t.ledger, i + 1) <= c
    requires oldest == OldestInSnap(t, i) && m == R.ApplyAll(hist[..c]) && goal == R.FlatView(t.target)
    ensures ApplyDown(Older(m, oldest), t.target, i + 1) == goal
  {
    OldestInDifferingSnap(t, hist, c, i);
    StartAtSnap(t, hist, c, i, oldest - 1, Older(m, oldest), goal);
  }

  lemma {:induction false} WalkAtCurr(t: Task, hist: seq<Batch>, c: nat, i: nat, oldest: nat, m: T.Entries,
                                      goal: T.Entries)
    requires Fits(t, hist, c) && i < |t.target| && t.CurrDiffers(i) && SnapTop(|t.target|, t.ledger, i) <= c
    requires oldest == OldestInCurr(t, i) && m == R.ApplyAll(hist[..c]) && goal == R.FlatView(t.target)
    ensures ApplyDown(R.ApplyBatch(Older(m, oldest), t.target[i].curr), t.target, i) == goal
  {
    OldestInDifferingCurr(t, hist, c, i);
    StartAtCurr(t, hist, c, i, oldest - 1, Older(m, oldest), goal);
  }

  lemma {:induction false} NothingApplied(t: Task, hist: seq<Batch>, c: nat)
    requires Fits(t, hist, c) && t.ledger <= c
    ensures R.ApplyAll(hist[..c]) == R.FlatView(t.target)
  {
    assert hist[..c] == hist;
    R.FlatViewOfRun(|t.target|, hist);
  }

  lemma {:induction false} WalkFrom(t: Task, hist: seq<Batch>, c: nat, s: Start, m: T.Entries, goal: T.Entries)
    requires Fits(t, hist, c) && SkippedBefore(t, s) <= c
    requires s.AtSnap? ==> s.level < |t.target| && t.SnapDiffers(s.level)
    requires s.AtCurr? ==> s.level < |t.target| && t.CurrDiffers(s.level)
    requires m == R.ApplyAll(hist[..c]) && goal == R.FlatView(t.target)
    ensures WalkAt(t, m, s) == goal
  {
    match s
    case Nowhere => NothingApplied(t, hist, c);
    case AtSnap(j) => WalkAtSnap(t, hist, c, j, OldestInSnap(t, j), m, goal);
    case AtCurr(j) => WalkAtCurr(t, hist, c, j, OldestInCurr(t, j), m, goal);
  }

  /** If the local node has all ledgers that the skipped buckets absorbed, the walk
      brings its store to the target's state. */
  lemma {:induction false} WalkGivesTarget(t: Task, hist: seq<Batch>, c: nat)
    requires Fits(t, hist, c) && SkippedUpTo(t, |t.target|) <= c
    ensures Walk(t, R.ApplyAll(hist[..c]), |t.target|) == R.FlatView(t.target)
  {
    WalkFrom(t, hist, c, FirstDiffering(t, |t.target|), R.ApplyAll(hist[..c]), R.FlatView(t.target));
  }

  // ----- Exactly when the walk is right -----

  /** Equal hashes at the same place mean equal buckets. */
  predicate HashTells(t: Task)
    requires |t.target| == |t.local|
  {
    forall i :: 0 <= i < |t.target| ==>
      && (!t.SnapDiffers(i) ==> t.target[i].snap == t.local[i].snap)
      && (!t.CurrDiffers(i) ==> t.target[i].curr == t.local[i].curr)
  }

  /** What deleting leaves of a store. */
  function Deleted(t: Task, m: T.Entries, s: Start): (r: T.Entries) {
    match s
    case Nowhere => m
    case AtSnap(j) => Older(m, OldestInSnap(t, j))
    case AtCurr(j) => Older(m, OldestInCurr(t, j))
  }

  /** What the applied buckets say about a key. */
  function Said(t: Task, s: Start, k: LedgerKey): (r: Option<Slot<LedgerEntry>>)
    requires !s.Nowhere? ==> s.level < |t.target|
  {
    match s
    case Nowhere => None
    case AtSnap(j) => Above(t.target, j + 1, k)
    case AtCurr(j) => if Above(t.target, j, k).Some? then Above(t.target, j, k) else R.Look(t.target[j].curr, k)
  }

  predicate Mentioned(t: Task, s: Start, k: LedgerKey)
    requires !s.Nowhere? ==> s.level < |t.target|
  {
    Said(t, s, k).Some?
  }

  lemma {:induction false} WalkSeen(t: Task, m: T.Entries, s: Start, k: LedgerKey)
    requires !s.Nowhere? ==> s.level < |t.target|
    ensures T.Lookup(WalkAt(t, m, s), k) == Seen(Said(t, s, k), T.Lookup(Deleted(t, m, s), k))
  {
    match s
    case Nowhere =>
    case AtSnap(j) => ApplyDownSeen(Deleted(t, m, s), t.target, j + 1, k);
    case AtCurr(j) =>
      BatchSeen(Deleted(t, m, s), t.target[j].curr, k);
      ApplyDownSeen(R.ApplyBatch(Deleted(t, m, s), t.target[j].curr), t.target, j, k);
  }

  /** A mentioned key ends as the target has it. */
  lemma {:induction false} MentionedRight(t: Task, m: T.Entries, s: Start, k: LedgerKey)
    requires !s.Nowhere? ==> s.level < |t.target|
    requires Mentioned(t, s, k)
    ensures T.Lookup(WalkAt(t, m, s), k) == T.Lookup(R.FlatView(t.target), k)
  {
    WalkSeen(t, m, s, k);
    FlatSeen(t.target, k);
    AboveIsLookup(t.target, if s.AtSnap? then s.level + 1 else s.level, k);
  }

  // ----- Entries of a bucket are no newer than the list -----

  predicate UpTo(b: Batch, c: nat) {
    forall k :: k in b && b[k].Live? ==> b[k].value.lastModified <= c
  }

  predicate LevelUpTo(l: Level, c: nat) {
    UpTo(l.curr, c) && UpTo(l.snap, c) && (l.next.IsLive() ==> UpTo(l.next.Outcome(), c))
  }

  lemma {:induction false} MergedUpTo(oldB: Batch, newB: Batch, shadows: seq<Batch>, keepDead: bool, c: nat)
    requires UpTo(oldB, c) && UpTo(newB, c)
    ensures UpTo(Merged(oldB, newB, shadows, keepDead), c)
  {
  }

  lemma {:induction false} PreparedUpTo(n: nat, ledger: nat, i: nat, l: Level, snap: Batch,
                                        shadows: seq<Batch>, c: nat)
    requires UpTo(l.curr, c) && UpTo(l.snap, c) && UpTo(snap, c)
    ensures LevelUpTo(B.Prepared(n, ledger, i, l, snap, shadows), c)
  {
    var next := B.Prepared(n, ledger, i, l, snap, shadows).next;
    MergedUpTo(next.curr, next.snap, next.shadows, next.keepDead, c);
  }

  lemma {:induction false} ClosedUpTo(levels: seq<Level>, ledger: nat, batch: Batch, i: nat, c: nat)
    requires i < |levels| && UpTo(batch, c) && forall j :: 0 <= j < |levels| ==> LevelUpTo(levels[j], c)
    ensures LevelUpTo(B.Closed(levels, ledger, batch, i), c)
  {
    var n := |levels|;
    var l := B.Snapped(n, ledger, i, levels[i]);
    assert LevelUpTo(l, c);
    if i == 0 {
      PreparedUpTo(n, ledger, 0, l, batch, [], c);
    } else if LevelShouldSpill(n, ledger, i - 1) {
      assert LevelUpTo(levels[i - 1], c);
      PreparedUpTo(n, ledger, i, B.Committed(l), levels[i - 1].curr, B.Shadows(levels, i - 1), c);
    }
  }

  lemma {:induction false} RunUpTo(n: nat, hist: seq<Batch>, i: nat)
    requires StampedHist(hist) && i < n
    ensures LevelUpTo(B.Run(n, hist)[i], |hist|)
    decreases |hist|
  {
    if hist != [] {
      var init, c := hist[..|hist| - 1], |hist|;
      PrefixStamped(hist, c - 1);
      forall j | 0 <= j < n
        ensures LevelUpTo(B.Run(n, init)[j], c)
      {
        RunUpTo(n, init, j);
      }
      ClosedUpTo(B.Run(n, init), c, hist[c - 1], i, c);
    }
  }

  // ----- The walk keeps the target's entries -----

  /** From level i on the local list has the same buckets. */
  predicate SameFrom(t: Task, i: nat)
    requires i <= |t.target| == |t.local|
  {
    forall j :: i <= j < |t.target| ==> !t.SnapDiffers(j) && !t.CurrDiffers(j)
  }

  lemma {:induction false} SkippedAlike(t: Task, i: nat)
    requires i <= |t.target| == |t.local| && SameFrom(t, i)
    ensures var s := FirstDiffering(t, i);
            && SameFrom(t, if s.Nowhere? then 0 else s.level + 1)
            && (s.AtCurr? ==> !t.SnapDiffers(s.level))
  {
    if i > 0 && !t.SnapDiffers(i - 1) && !t.CurrDiffers(i - 1) {
      SkippedAlike(t, i - 1);
    }
  }

  predicate SlotUpTo(s: Option<Slot<LedgerEntry>>, c: nat) {
    s.Some? && s.value.Live? ==> s.value.value.lastModified <= c
  }

  lemma {:induction false} SameIsLocal(t: Task, hist: seq<Batch>, c: nat, i: nat)
    requires Fits(t, hist, c) && HashTells(t) && i < |t.target|
    ensures !t.SnapDiffers(i) ==> UpTo(t.target[i].snap, c)
    ensures !t.CurrDiffers(i) ==> UpTo(t.target[i].curr, c)
  {
    PrefixStamped(hist, c);
    RunUpTo(|t.target|, hist[..c], i);
  }

  lemma {:induction false} LocalFrom(t: Task, hist: seq<Batch>, c: nat, i: nat, k: LedgerKey)
    requires Fits(t, hist, c) && HashTells(t) && i <= |t.target| && SameFrom(t, i)
    ensures SlotUpTo(R.Lookup(t.target, i, k), c)
    decreases |t.target| - i
  {
    if i < |t.target| {
      SameIsLocal(t, hist, c, i);
      LocalFrom(t, hist, c, i + 1, k);
    }
  }

  /** What the list says about a key that no applied bucket mentions. */
  lemma {:induction false} Unmentioned(levels: seq<Level>, t: Task, s: Start, k: LedgerKey)
    requires levels == t.target && (!s.Nowhere? ==> s.level < |levels|) && !Mentioned(t, s, k)
    ensures R.Lookup(levels, 0, k) ==
            match s
            case Nowhere => R.Lookup(levels, 0, k)
            case AtSnap(j) => R.Lookup(levels, j + 1, k)
            case AtCurr(j) => if k in levels[j].snap then Some(levels[j].snap[k]) else R.Lookup(levels, j + 1, k)
  {
    AboveIsLookup(levels, if s.AtSnap? then s.level + 1 else if s.AtCurr? then s.level else 0, k);
  }

  /** What the skipped buckets say is no newer than the local node. */
  lemma {:induction false} SkippedIsLocal(t: Task, hist: seq<Batch>, c: nat, s: Start, k: LedgerKey)
    requires Fits(t, hist, c) && HashTells(t) && (!s.Nowhere? ==> s.level < |t.target|) && !Mentioned(t, s, k)
    requires SameFrom(t, if s.Nowhere? then 0 else s.level + 1) && (s.AtCurr? ==> !t.SnapDiffers(s.level))
    ensures SlotUpTo(R.Lookup(t.target, 0, k), c)
  {
    Unmentioned(t.target, t, s, k);
    LocalFrom(t, hist, c, if s.Nowhere? then 0 else s.level + 1, k);
    if s.AtCurr? {
      SameIsLocal(t, hist, c, s.level);
    }
  }

  /** An entry of the target that is no newer than the local node is there. */
  lemma {:induction false} LocalHas(hist: seq<Batch>, c: nat, k: LedgerKey)
    requires StampedHist(hist) && c <= |hist| && k in R.ApplyAll(hist) && R.ApplyAll(hist)[k].lastModified <= c
    ensures T.Lookup(R.ApplyAll(hist[..c]), k) == T.Lookup(R.ApplyAll(hist), k)
  {
    R.ApplyAllIsNewest(hist, k);
    R.NewestSplit(hist, 0, c, |hist|, k);
    NewestStamp(hist, c, |hist|, k);
    NewestOfPrefix(hist, c, 0, c, k);
    R.ApplyAllIsNewest(hist[..c], k);
  }

  /** Nothing is deleted from a node that lacks a ledger of the skipped buckets. */
  lemma {:induction false} NothingDeleted(t: Task, hist: seq<Batch>, c: nat, m: T.Entries)
    requires Fits(t, hist, c) && SkippedUpTo(t, |t.target|) > c && m == R.ApplyAll(hist[..c])
    ensures Deleted(t, m, FirstDiffering(t, |t.target|)) == m
  {
    var s := FirstDiffering(t, |t.target|);
    if s.AtSnap? {
      OldestInDifferingSnap(t, hist, c, s.level);
    } else if s.AtCurr? {
      OldestInDifferingCurr(t, hist, c, s.level);
    }
    PrefixStamped(hist, c);
    forall k | k in m
      ensures m[k].lastModified <= c
    {
      R.ApplyAllIsNewest(hist[..c], k);
      NewestStamp(hist[..c], 0, c, k);
    }
  }

  lemma {:induction false} UnmentionedKept(t: Task, hist: seq<Batch>, c: nat, m: T.Entries, goal: T.Entries,
                                           k: LedgerKey)
    requires Fits(t, hist, c) && HashTells(t) && SkippedUpTo(t, |t.target|) > c
    requires m == R.ApplyAll(hist[..c]) && goal == R.FlatView(t.target)
    requires k in goal && !Mentioned(t, FirstDiffering(t, |t.target|), k)
    ensures T.Lookup(Walk(t, m, |t.target|), k) == Some(goal[k])
  {
    R.FlatViewOfRun(|t.target|, hist);
    SkippedAlike(t, |t.target|);
    SkippedIsLocal(t, hist, c, FirstDiffering(t, |t.target|), k);
    FlatSeen(t.target, k);
    LocalHas(hist, c, k);
    NothingDeleted(t, hist, c, m);
    WalkSeen(t, m, FirstDiffering(t, |t.target|), k);
  }

  /** At whatever ledger the local node is, the walk neither loses nor changes an
      entry of the target: the one thing that can go wrong is an entry left over. */
  lemma {:induction false} TargetKept(t: Task, hist: seq<Batch>, c: nat, k: LedgerKey)
    requires Fits(t, hist, c) && HashTells(t) && k in R.FlatView(t.target)
    ensures T.Lookup(Walk(t, R.ApplyAll(hist[..c]), |t.target|), k) == Some(R.FlatView(t.target)[k])
  {
    var m, s := R.ApplyAll(hist[..c]), FirstDiffering(t, |t.target|);
    if SkippedUpTo(t, |t.target|) <= c {
      WalkGivesTarget(t, hist, c);
    } else if Mentioned(t, s, k) {
      MentionedRight(t, m, s, k);
    } else {
      UnmentionedKept(t, hist, c, m, R.FlatView(t.target), k);
    }
  }

  /** Every entry that is to go, and that deleting leaves, is mentioned by an applied
      bucket. */
  ghost predicate LeftoversMentioned(t: Task, m: T.Entries)
    requires |t.target| == |t.local|
  {
    var s := FirstDiffering(t, |t.target|);
    forall k :: k in Deleted(t, m, s) && k !in R.FlatView(t.target) ==> Mentioned(t, s, k)
  }

  lemma {:induction false} KeyRightIff(t: Task, hist: seq<Batch>, c: nat, m: T.Entries, k: LedgerKey)
    requires Fits(t, hist, c) && HashTells(t) && m == R.ApplyAll(hist[..c])
    ensures var s, goal := FirstDiffering(t, |t.target|), R.FlatView(t.target);
            T.Lookup(Walk(t, m, |t.target|), k) == T.Lookup(goal, k) <==>
            (k in Deleted(t, m, s) && k !in goal ==> Mentioned(t, s, k))
  {
    var s := FirstDiffering(t, |t.target|);
    if Mentioned(t, s, k) {
      MentionedRight(t, m, s, k);
    } else if k in R.FlatView(t.target) {
      TargetKept(t, hist, c, k);
    } else {
      WalkSeen(t, m, s, k);
    }
  }

  /** The walk brings the local store to the target's state if and only if every
      leftover is mentioned; that can be told from the store and the two lists
      beforehand. */
  lemma {:induction false} WalkRightIff(t: Task, hist: seq<Batch>, c: nat)
    requires Fits(t, hist, c) && HashTells(t)
    ensures var m := R.ApplyAll(hist[..c]);
            Walk(t, m, |t.target|) == R.FlatView(t.target) <==> LeftoversMentioned(t, m)
  {
    var m, goal := R.ApplyAll(hist[..c]), R.FlatView(t.target);
    var walked := Walk(t, m, |t.target|);
    forall k
      ensures T.Lookup(walked, k) == T.Lookup(goal, k) <==>
              (k in Deleted(t, m, FirstDiffering(t, |t.target|)) && k !in goal ==>
               Mentioned(t, FirstDiffering(t, |t.target|), k))
    {
      KeyRightIff(t, hist, c, m, k);
    }
    if LeftoversMentioned(t, m) {
      SameMap(walked, goal);
    }
  }

  // ----- A walk that goes wrong -----

  const EXAMPLE_KEY: LedgerKey := AccountKey(0)
  const EXAMPLE_ENTRY: LedgerEntry := LedgerEntry(1, Account(0, 0, Nothing))

  /** Ledger 1 creates an account, ledger 2 removes it, and nothing happens up to
      ledger 6. */
  function ExampleHist(): (hist: seq<Batch>) {
    [map[EXAMPLE_KEY := Live(EXAMPLE_ENTRY)], map[EXAMPLE_KEY := Dead], map[], map[], map[], map[]]
  }

  lemma {:induction false} ExampleTops()
    ensures SnapTop(2, 6, 0) == 5 && CurrTop(2, 6, 1) == 3 && SnapTop(2, 6, 1) == 0 && CurrTop(2, 6, 0) == 6
    ensures SnapTop(2, 1, 0) == 0 && CurrTop(2, 1, 1) == 0 && SnapTop(2, 1, 1) == 0 && CurrTop(2, 1, 0) == 1
  {
    assert Mask(6, 2) == 6 by {
      assert Mask(2, 2) == 2 && Mask(4, 2) == 4;
    }
    assert LevelHalf(0) == 2 && LevelSize(0) == 4 && SnapLag(0) == 1;
  }

  lemma {:induction false} ExampleNewest(k: LedgerKey)
    ensures var h := ExampleHist();
            && R.Newest(h, 5, 6, k) == R.Newest(h, 3, 5, k) == R.Newest(h, 3, 6, k) == None
            && R.Newest(h, 0, 3, k) == if k == EXAMPLE_KEY then Some(Dead) else None
  {
    var h := ExampleHist();
    assert R.Newest(h, 3, 4, k) == None && R.Newest(h, 0, 1, k) == if k == EXAMPLE_KEY then Some(Live(EXAMPLE_ENTRY))
      else None;
    assert R.Newest(h, 0, 2, k) == if k == EXAMPLE_KEY then Some(Dead) else None;
    assert R.Newest(h, 3, 5, k) == None;
  }

  /** The tombstone is dropped on its way into the last level, so at ledger 6 all
      buckets are empty. */
  lemma {:induction false} ExampleTarget()
    ensures var target := B.Run(2, ExampleHist());
            forall j :: 0 <= j < 2 ==> target[j].curr == map[] && target[j].snap == map[]
  {
    var h, target := ExampleHist(), B.Run(2, ExampleHist());
    ExampleTops();
    CurrCovered(2, h, 0);
    CurrCovered(2, h, 1);
    forall k: LedgerKey
      ensures k !in target[0].curr && k !in target[0].snap && k !in target[1].curr
    {
      ExampleNewest(k);
      assert R.CoversKey(target[0].curr, h, 5, 6, false, k);
      assert R.CoversKey(target[0].snap, h, 3, 5, false, k);
      assert R.CoversKey(target[1].curr, h, 0, 3, true, k);
    }
    EmptyRange(target[1].snap, h, 0, false);
  }

  /** At ledger 1 only the newest bucket holds anything. */
  lemma {:induction false} ExampleLocal()
    ensures var h := ExampleHist()[..1];
            var local := B.Run(2, h);
            && local[0].curr == h[0] && local[0].snap == map[] && local[1].curr == map[] && local[1].snap == map[]
            && R.ApplyAll(h) == map[EXAMPLE_KEY := EXAMPLE_ENTRY]
  {
    var h := ExampleHist()[..1];
    var local := B.Run(2, h);
    ExampleTops();
    CurrCovered(2, h, 0);
    CurrCovered(2, h, 1);
    EmptyRange(local[0].snap, h, 0, false);
    EmptyRange(local[1].curr, h, 0, true);
    EmptyRange(local[1].snap, h, 0, false);
    forall k: LedgerKey
      ensures R.Look(local[0].curr, k) == R.Look(h[0], k)
    {
      assert R.CoversKey(local[0].curr, h, 0, 1, false, k);
      assert R.Newest(h, 1, 1, k) == None && R.Newest(h, 0, 0, k) == None && R.Newest(h, 0, 1, k) == R.Look(h[0], k);
    }
    SameBucket(local[0].curr, h[0]);
    assert h[..0] == [] && R.ApplyAll(h[..0]) == map[];
  }

  lemma {:induction false} SameBucket(a: Batch, b: Batch)
    requires forall k :: R.Look(a, k) == R.Look(b, k)
    ensures a == b
  {
    forall k
      ensures (k in a <==> k in b) && (k in a ==> a[k] == b[k])
    {
      assert R.Look(a, k) == R.Look(b, k);
    }
  }

  lemma {:induction false} EmptyFlat(levels: seq<Level>)
    requires |levels| == 2 && forall j :: 0 <= j < 2 ==> levels[j].curr == map[] && levels[j].snap == map[]
    ensures R.FlatView(levels) == map[]
  {
    assert R.KeysFrom(levels, 2) == {};
    assert R.KeysFrom(levels, 1) == {};
  }

  lemma {:induction false} ExampleWalk(t: Task, m: T.Entries)
    requires |t.target| == |t.local| == 2 && t.ledger == 6 && m == map[EXAMPLE_KEY := EXAMPLE_ENTRY]
    requires forall j :: 0 <= j < 2 ==> t.target[j].curr == map[] && t.target[j].snap == map[]
    requires !t.SnapDiffers(1) && !t.CurrDiffers(1) && !t.SnapDiffers(0) && t.CurrDiffers(0)
    ensures Walk(t, m, 2) == m && SkippedUpTo(t, 2) > 1
  {
    ExampleTops();
    assert Older(m, 6) == m && R.ApplyBatch(m, map[]) == m;
    assert Walk(t, m, 1) == m;
  }

  /** The last level is empty here and there, and so it is skipped, although in
      the target it has absorbed ledgers 1 to 3. The removed account stays. */
  lemma {:induction false} WalkWrongWhenSkippedDiffer(hash: Batch -> nat, t: Task)
    requires hash(map[EXAMPLE_KEY := Live(EXAMPLE_ENTRY)]) != hash(map[])
    requires t == Task(hash, B.Run(2, ExampleHist()), B.Run(2, ExampleHist()[..1]), 6)
    ensures Fits(t, ExampleHist(), 1) && SkippedUpTo(t, 2) > 1
    ensures Walk(t, R.ApplyAll(ExampleHist()[..1]), 2) == map[EXAMPLE_KEY := EXAMPLE_ENTRY]
    ensures R.FlatView(t.target) == map[]
  {
    ExampleTarget();
    ExampleLocal();
    EmptyFlat(t.target);
    ExampleWalk(t, R.ApplyAll(ExampleHist()[..1]));
  }
}
