/** What every run of the bucket list keeps, and the theorem that the list
    always answers like the plain map of all changes so far. */
module BucketListRuns {
  import opened BucketFile
  import opened LevelArithmetic
  import opened BucketList

  // ----- The reference: batches applied in order to a plain map -----

  function ApplyBatch<K, V>(m: map<K, V>, batch: Bucket<K, V>): (r: map<K, V>) {
    map k | k in m.Keys + batch.Keys && (k in batch ==> batch[k].Live?)
          :: if k in batch then batch[k].value else m[k]
  }

  function ApplyAll<K, V>(hist: seq<Bucket<K, V>>): (m: map<K, V>) {
    if hist == [] then map[] else ApplyBatch(ApplyAll(hist[..|hist| - 1]), hist[|hist| - 1])
  }

  // ----- The newest change to a key within a range of ledgers -----

  /** Over ledgers (lo, hi]; the batch of ledger t is hist[t - 1]. */
  function Newest<K, V>(hist: seq<Bucket<K, V>>, lo: nat, hi: nat, k: K): (r: Option<Slot<V>>)
    requires hi <= |hist|
  {
    if hi <= lo then None
    else if k in hist[hi - 1] then Some(hist[hi - 1][k])
    else Newest(hist, lo, hi - 1, k)
  }

  lemma {:induction false} NewestSplit<K, V>(hist: seq<Bucket<K, V>>, lo: nat, mid: nat, hi: nat, k: K)
    requires lo <= mid <= hi <= |hist|
    ensures Newest(hist, lo, hi, k) ==
            if Newest(hist, mid, hi, k).Some? then Newest(hist, mid, hi, k) else Newest(hist, lo, mid, k)
  {
    if mid < hi && k !in hist[hi - 1] {
      NewestSplit(hist, lo, mid, hi - 1, k);
    }
  }

  lemma {:induction false} NewestPrefix<K, V>(hist: seq<Bucket<K, V>>, batch: Bucket<K, V>, lo: nat, hi: nat, k: K)
    requires hi <= |hist|
    ensures Newest(hist + [batch], lo, hi, k) == Newest(hist, lo, hi, k)
  {
    if lo < hi && k !in hist[hi - 1] {
      NewestPrefix(hist, batch, lo, hi - 1, k);
    }
  }

  lemma {:induction false} ApplyAllIsNewest<K, V>(hist: seq<Bucket<K, V>>, k: K)
    ensures k in ApplyAll(hist) <==> Newest(hist, 0, |hist|, k).Some? && Newest(hist, 0, |hist|, k).value.Live?
    ensures k in ApplyAll(hist) ==> ApplyAll(hist)[k] == Newest(hist, 0, |hist|, k).value.value
  {
    if hist != [] {
      var prev, batch := hist[..|hist| - 1], hist[|hist| - 1];
      assert hist == prev + [batch];
      ApplyAllIsNewest(prev, k);
      NewestPrefix(prev, batch, 0, |prev|, k);
    }
  }

  // ----- What a bucket may hold -----

  function Look<K, V>(b: Bucket<K, V>, k: K): (r: Option<Slot<V>>) {
    if k in b then Some(b[k]) else None
  }

  function Kept<V>(s: Option<Slot<V>>, dropDead: bool): (r: Option<Slot<V>>) {
    if dropDead && s.Some? && s.value.Dead? then None else s
  }

  /** A bucket for ledgers (lo, hi] has only keys changed there, and is right
      about every key that no later ledger changes. About the others it may be
      out of date or silent: that is what shadowing leaves behind. */
  ghost predicate CoversKey<K, V>(b: Bucket<K, V>, hist: seq<Bucket<K, V>>, lo: nat, hi: nat, dropDead: bool, k: K)
    requires hi <= |hist|
  {
    && (k in b ==> Newest(hist, lo, hi, k).Some?)
    && (Newest(hist, hi, |hist|, k).None? ==> Look(b, k) == Kept(Newest(hist, lo, hi, k), dropDead))
  }

  ghost predicate Covers<K(!new), V>(b: Bucket<K, V>, hist: seq<Bucket<K, V>>, lo: nat, hi: nat, dropDead: bool) {
    && lo <= hi <= |hist|
    && forall k :: CoversKey(b, hist, lo, hi, dropDead, k)
  }

  lemma {:induction false} EmptyCovers<K(!new), V>(hist: seq<Bucket<K, V>>, at: nat, dropDead: bool)
    requires at <= |hist|
    ensures Covers(map[], hist, at, at, dropDead)
  {
  }

  /** A bucket stays right while later ledgers close. */
  lemma {:induction false} CoversLater<K(!new), V>(b: Bucket<K, V>, hist: seq<Bucket<K, V>>, batch: Bucket<K, V>,
                                                   lo: nat, hi: nat, dropDead: bool)
    requires Covers(b, hist, lo, hi, dropDead)
    ensures Covers(b, hist + [batch], lo, hi, dropDead)
  {
    forall k
      ensures CoversKey(b, hist + [batch], lo, hi, dropDead, k)
    {
      assert CoversKey(b, hist, lo, hi, dropDead, k);
      NewestPrefix(hist, batch, lo, hi, k);
      NewestPrefix(hist, batch, hi, |hist|, k);
    }
  }

  /** Every shadow only has keys changed after ledger `after`. */
  ghost predicate ShadowsAfter<K(!new), V>(shadows: seq<Bucket<K, V>>, hist: seq<Bucket<K, V>>, after: nat) {
    forall s, k :: 0 <= s < |shadows| && k in shadows[s] ==> Newest(hist, after, |hist|, k).Some?
  }

  /** The heart of the matter: merging neighbours, less what newer buckets
      shadow, gives a bucket for the joined range. */
  lemma {:induction false} MergeCovers<K(!new), V>(oldB: Bucket<K, V>, newB: Bucket<K, V>, shadows: seq<Bucket<K, V>>,
                                                   keepDead: bool, hist: seq<Bucket<K, V>>, lo: nat, mid: nat, hi: nat,
                                                   oldDropped: bool)
    requires Covers(oldB, hist, lo, mid, oldDropped)
    requires Covers(newB, hist, mid, hi, false)
    requires ShadowsAfter(shadows, hist, hi)
    requires oldDropped ==> !keepDead
    ensures Covers(Merged(oldB, newB, shadows, keepDead), hist, lo, hi, !keepDead)
  {
    var m, dropped := Merged(oldB, newB, shadows, keepDead), !keepDead;
    forall k
      ensures CoversKey(m, hist, lo, hi, dropped, k)
    {
      assert CoversKey(oldB, hist, lo, mid, oldDropped, k);
      assert CoversKey(newB, hist, mid, hi, false, k);
      NewestSplit(hist, lo, mid, hi, k);
      NewestSplit(hist, mid, hi, |hist|, k);
    }
  }

  // ----- The invariant -----

  /** The ranges of a level's buckets, (lo, hi] each, and of its pending merge
      if it has one; snap reaches up to where curr begins. */
  datatype Ranges = Ranges(snapLo: nat, currLo: nat, currHi: nat, live: bool, nextLo: nat, nextHi: nat, last: bool)

  ghost predicate LevelCovers<K(!new), V>(hist: seq<Bucket<K, V>>, l: Level<K, V>, r: Ranges) {
    && Covers(l.curr, hist, r.currLo, r.currHi, r.last)
    && Covers(l.snap, hist, r.snapLo, r.currLo, false)
    && (l.next.IsLive() <==> r.live)
    && (r.live ==> Covers(l.next.Outcome(), hist, r.nextLo, r.nextHi, r.last))
  }

  ghost predicate ListCovers<K(!new), V>(hist: seq<Bucket<K, V>>, levels: seq<Level<K, V>>, rs: seq<Ranges>) {
    && |levels| == |rs|
    && forall i :: 0 <= i < |rs| ==> LevelCovers(hist, levels[i], rs[i])
  }

  /** The ranges are contiguous, newest first, and cover ledgers 1 to k. */
  ghost predicate Chained(rs: seq<Ranges>, k: nat) {
    && rs != [] && rs[0].currHi == k
    && (forall i :: 0 <= i < |rs| ==> rs[i].snapLo <= rs[i].currLo <= rs[i].currHi)
    && (forall i :: 0 < i < |rs| ==> rs[i].currHi == rs[i - 1].snapLo)
    && (forall i :: 0 <= i < |rs| ==> (rs[i].last <==> i == |rs| - 1))
    && rs[|rs| - 1].currLo == 0
  }

  // ----- The ranges the program's arithmetic gives -----

  /** Where the range of the merge pending on level i begins. */
  function NextBottom(n: nat, k: nat, i: nat): (r: nat)
    requires i > 0
  {
    if LevelShouldSpill(n, Mask(k, LevelHalf(i - 1)) + LevelHalf(i - 1), i) then CurrTop(n, k, i) else SnapTop(n, k, i)
  }

  function RangesOf(n: nat, k: nat, i: nat): (r: Ranges) {
    Ranges(CurrTop(n, k, i + 1), SnapTop(n, k, i), CurrTop(n, k, i),
           i > 0 && Mask(k, LevelHalf(i - 1)) != 0,
           if i > 0 then NextBottom(n, k, i) else 0, if i > 0 then SnapTop(n, k, i - 1) else 0, i == n - 1)
  }

  function AllRanges(n: nat, k: nat): (rs: seq<Ranges>)
    ensures |rs| == n
  {
    seq(n, i requires 0 <= i < n => RangesOf(n, k, i))
  }

  lemma {:induction false} RangesAt(n: nat, k: nat, i: nat)
    requires i < n
    ensures var r := AllRanges(n, k)[i];
            && r.snapLo == CurrTop(n, k, i + 1) && r.currLo == SnapTop(n, k, i) && r.currHi == CurrTop(n, k, i)
            && r.last == (i == n - 1)
  {
    assert AllRanges(n, k)[i] == RangesOf(n, k, i);
  }

  lemma {:induction false} RangesChained(n: nat, k: nat)
    requires n >= 1
    ensures Chained(AllRanges(n, k), k)
  {
    var rs := AllRanges(n, k);
    forall i | 0 <= i < n
      ensures rs[i].snapLo <= rs[i].currLo <= rs[i].currHi && (rs[i].last <==> i == n - 1)
    {
      TopsDescend(n, k, i);
      RangesAt(n, k, i);
    }
    RangesAt(n, k, 0);
    RangesAt(n, k, n - 1);
    forall i | 0 < i < n
      ensures rs[i].currHi == rs[i - 1].snapLo
    {
      RangesAt(n, k, i);
      RangesAt(n, k, i - 1);
    }
  }

  /** Every bucket of the list covers the ledgers the arithmetic gives it. */
  ghost predicate ListOk<K(!new), V>(n: nat, hist: seq<Bucket<K, V>>, levels: seq<Level<K, V>>) {
    ListCovers(hist, levels, AllRanges(n, |hist|))
  }

  lemma {:induction false} InitialOk<K(!new), V>(n: nat)
    ensures ListOk<K, V>(n, [], Initial(n))
  {
    var rs := AllRanges(n, 0);
    forall i | 0 <= i < n
      ensures LevelCovers<K, V>([], Initial(n)[i], rs[i])
    {
      EmptyCovers<K, V>([], 0, i == n - 1);
      EmptyCovers<K, V>([], 0, false);
    }
  }

  // ----- Shadows -----

  lemma {:induction false} KeyAfter<K(!new), V>(b: Bucket<K, V>, hist: seq<Bucket<K, V>>, lo: nat, hi: nat,
                                                dropDead: bool, after: nat, k: K)
    requires Covers(b, hist, lo, hi, dropDead) && after <= lo && k in b
    ensures Newest(hist, after, |hist|, k).Some?
  {
    assert CoversKey(b, hist, lo, hi, dropDead, k);
    NewestSplit(hist, after, lo, hi, k);
    NewestSplit(hist, after, hi, |hist|, k);
  }

  lemma {:induction false} LevelKeysAfter<K(!new), V>(hist: seq<Bucket<K, V>>, l: Level<K, V>, r: Ranges, after: nat,
                                                      k: K)
    requires LevelCovers(hist, l, r) && after <= r.snapLo <= r.currLo && (k in l.curr || k in l.snap)
    ensures Newest(hist, after, |hist|, k).Some?
  {
    if k in l.curr {
      KeyAfter(l.curr, hist, r.currLo, r.currHi, r.last, after, k);
    } else {
      KeyAfter(l.snap, hist, r.snapLo, r.currLo, false, after, k);
    }
  }

  /** Everything held above level m was changed after what level m holds. */
  lemma {:induction false} ShadowsAreNewer<K(!new), V>(hist: seq<Bucket<K, V>>, levels: seq<Level<K, V>>,
                                                       rs: seq<Ranges>, m: nat, after: nat)
    requires ListCovers(hist, levels, rs) && Chained(rs, |hist|) && m < |rs| && after <= rs[m].currHi
    ensures ShadowsAfter(Shadows(levels, m), hist, after)
  {
    if m > 0 {
      var s, s' := Shadows(levels, m - 1), Shadows(levels, m);
      ShadowsAreNewer(hist, levels, rs, m - 1, after);
      forall j, key | 0 <= j < |s'| && key in s'[j]
        ensures Newest(hist, after, |hist|, key).Some?
      {
        if j < |s| {
          assert key in s[j];
        } else {
          LevelKeysAfter(hist, levels[m - 1], rs[m - 1], after, key);
        }
      }
    }
  }

  lemma {:induction false} ShadowsLater<K(!new), V>(shadows: seq<Bucket<K, V>>, hist: seq<Bucket<K, V>>,
                                                    batch: Bucket<K, V>, after: nat)
    requires ShadowsAfter(shadows, hist, after) && after <= |hist|
    ensures ShadowsAfter(shadows, hist + [batch], after)
  {
    forall s, k | 0 <= s < |shadows| && k in shadows[s]
      ensures Newest(hist + [batch], after, |hist| + 1, k).Some?
    {
      NewestPrefix(hist, batch, after, |hist|, k);
    }
  }

  lemma {:induction false} BatchCovers<K(!new), V>(hist: seq<Bucket<K, V>>, batch: Bucket<K, V>)
    ensures Covers(batch, hist + [batch], |hist|, |hist| + 1, false)
  {
    var hist', at := hist + [batch], |hist| + 1;
    forall k
      ensures CoversKey(batch, hist', |hist|, at, false, k)
    {
      assert hist'[|hist|] == batch;
      assert Newest(hist', |hist|, |hist|, k) == None;
    }
  }

  // ----- One level, given how its ranges move -----

  /** Closing a ledger changes nothing at this level. */
  lemma {:induction false} LevelLater<K(!new), V>(hist: seq<Bucket<K, V>>, batch: Bucket<K, V>, l: Level<K, V>,
                                                  r: Ranges)
    requires LevelCovers(hist, l, r)
    ensures LevelCovers(hist + [batch], l, r)
  {
    CoversLater(l.curr, hist, batch, r.currLo, r.currHi, r.last);
    CoversLater(l.snap, hist, batch, r.snapLo, r.currLo, false);
    if r.live {
      CoversLater(l.next.Outcome(), hist, batch, r.nextLo, r.nextHi, r.last);
    }
  }

  /** The ranges after curr has become snap. */
  ghost predicate Shifts(r: Ranges, r': Ranges, spills: bool) {
    && r'.last == r.last
    && (if spills then r'.snapLo == r.currLo && r'.currLo == r.currHi && !r.last
        else r'.snapLo == r.snapLo && r'.currLo == r.currLo)
  }

  function SnappedIf<K, V>(spills: bool, l: Level<K, V>): (r: Level<K, V>) {
    if spills then l.(snap := l.curr, curr := map[]) else l
  }

  lemma {:induction false} SnappedCovers<K(!new), V>(hist: seq<Bucket<K, V>>, l: Level<K, V>, r: Ranges, r': Ranges,
                                                     spills: bool)
    requires LevelCovers(hist, l, r) && Shifts(r, r', spills)
    ensures Covers(SnappedIf(spills, l).snap, hist, r'.snapLo, r'.currLo, false)
    ensures Covers(SnappedIf(spills, l).curr, hist, r'.currLo, r.currHi, r.last)
  {
    EmptyCovers<K, V>(hist, r.currHi, r.last);
  }

  /** The pending merge lands, or there was none and nothing to land. */
  ghost predicate Lands(r: Ranges, r': Ranges) {
    if r.live then r'.currLo == r.nextLo && r'.currHi == r.nextHi else r'.currHi == r.currHi
  }

  lemma {:induction false} CommittedCovers<K(!new), V>(hist: seq<Bucket<K, V>>, l: Level<K, V>, r: Ranges, r': Ranges,
                                                       spills: bool)
    requires LevelCovers(hist, l, r) && Shifts(r, r', spills) && Lands(r, r')
    ensures Covers(Committed(SnappedIf(spills, l)).snap, hist, r'.snapLo, r'.currLo, false)
    ensures Covers(Committed(SnappedIf(spills, l)).curr, hist, r'.currLo, r'.currHi, r.last)
  {
    SnappedCovers(hist, l, r, r', spills);
  }

  /** The next merge starts from what was just spilled above, and from curr
      unless curr is about to be spilled itself. */
  lemma {:induction false} StartedCovers<K(!new), V>(hist: seq<Bucket<K, V>>, l: Level<K, V>, r: Ranges,
                                                     skipCurr: bool, newB: Bucket<K, V>, shadows: seq<Bucket<K, V>>)
    requires Covers(l.curr, hist, r.currLo, r.currHi, r.last)
    requires Covers(l.snap, hist, r.snapLo, r.currLo, false)
    requires Covers(newB, hist, r.currHi, r.nextHi, false) && ShadowsAfter(shadows, hist, r.nextHi)
    requires r.live && r.nextLo == if skipCurr then r.currHi else r.currLo
    ensures LevelCovers(hist, l.(next := LiveInputs(if skipCurr then map[] else l.curr, newB, shadows, !r.last)), r)
  {
    var base := if skipCurr then map[] else l.curr;
    EmptyCovers<K, V>(hist, r.currHi, r.last);
    MergeCovers(base, newB, shadows, !r.last, hist, r.nextLo, r.currHi, r.nextHi, r.last);
  }

  lemma {:induction false} SpilledIntoCovers<K(!new), V>(hist: seq<Bucket<K, V>>, batch: Bucket<K, V>, l: Level<K, V>,
      r: Ranges, r': Ranges, spills: bool, skipCurr: bool, newB: Bucket<K, V>, shadows: seq<Bucket<K, V>>)
    requires LevelCovers(hist, l, r) && Shifts(r, r', spills) && Lands(r, r')
    requires Covers(newB, hist + [batch], r'.currHi, r'.nextHi, false)
             && ShadowsAfter(shadows, hist + [batch], r'.nextHi)
    requires r'.live && r'.nextLo == if skipCurr then r'.currHi else r'.currLo
    ensures var m := Committed(SnappedIf(spills, l));
            LevelCovers(hist + [batch], m.(next := LiveInputs(if skipCurr then map[]
              else m.curr, newB, shadows, !r'.last)), r')
  {
    LevelLater(hist, batch, l, r);
    CommittedCovers(hist + [batch], l, r, r', spills);
    StartedCovers(hist + [batch], Committed(SnappedIf(spills, l)), r', skipCurr, newB, shadows);
  }

  // ----- How the ranges move -----

  /** The change of a level's ranges when ledger c closes, given those of the
      level above it. */
  ghost predicate Moves(n: nat, c: nat, i: nat, above: Ranges, r: Ranges, r': Ranges) {
    && Shifts(r, r', LevelShouldSpill(n, c, i))
    && (i == 0 ==> !r'.live && r'.currHi == c)
    && (i > 0 && LevelShouldSpill(n, c, i - 1) ==>
          && Lands(r, r')
          && r'.live
          && r'.nextLo == (if LevelShouldSpill(n, c + LevelHalf(i - 1), i) then r'.currHi else r'.currLo)
          && r'.currHi == above.currLo
          && r'.nextHi == above.currHi)
    && (i > 0 && !LevelShouldSpill(n, c, i - 1) ==> r' == r && !LevelShouldSpill(n, c, i))
  }

  ghost predicate LevelStep(rs: seq<Ranges>, rs': seq<Ranges>, c: nat, i: nat)
    requires i < |rs| == |rs'|
  {
    Moves(|rs|, c, i, if i > 0 then rs[i - 1] else rs[i], rs[i], rs'[i])
  }

  lemma {:induction false} RangesShift(n: nat, k: nat, i: nat)
    requires i < n
    ensures Shifts(RangesOf(n, k, i), RangesOf(n, k + 1, i), LevelShouldSpill(n, k + 1, i))
  {
    SpillIsMultiple(n, k + 1, i);
    if LevelShouldSpill(n, k + 1, i) {
      SpillTops(n, k, i);
    } else if i < n - 1 {
      NoSpillTops(n, k, i);
    }
  }

  /** When level i - 1 spills, the merge pending on level i lands exactly where
      curr(i) is to be, and a new one starts. */
  lemma {:induction false} RangesLand(n: nat, k: nat, i: nat)
    requires 0 < i < n && Multiple(k + 1, LevelHalf(i - 1))
    ensures Lands(RangesOf(n, k, i), RangesOf(n, k + 1, i))
  {
    RangesShift(n, k, i);
    SpillTops(n, k, i - 1);
    MaskStep(k, LevelHalf(i - 1));
  }

  lemma {:induction false} RangesRestart(n: nat, k: nat, i: nat)
    requires 0 < i < n && Multiple(k + 1, LevelHalf(i - 1))
    ensures var r := RangesOf(n, k + 1, i);
            && r.live
            && r.nextLo == (if LevelShouldSpill(n, k + 1 + LevelHalf(i - 1), i) then r.currHi else r.currLo)
            && r.currHi == SnapTop(n, k, i - 1)
            && r.nextHi == CurrTop(n, k, i - 1)
  {
    SpillTops(n, k, i - 1);
    assert Mask(k + 1, LevelHalf(i - 1)) == k + 1;
  }

  /** Between spills of level i - 1 the ranges of level i stand still. */
  lemma {:induction false} RangesStand(n: nat, k: nat, i: nat)
    requires 0 < i < n && !Multiple(k + 1, LevelHalf(i - 1))
    ensures !LevelShouldSpill(n, k + 1, i)
    ensures RangesOf(n, k + 1, i) == RangesOf(n, k, i)
  {
    SpillIsMultiple(n, k + 1, i);
    CoarserSpill(k + 1, i);
    RangesShift(n, k, i);
    NoSpillTops(n, k, i - 1);
    MaskStep(k, LevelHalf(i - 1));
  }

  lemma {:induction false} RangesMove(n: nat, k: nat, i: nat)
    requires i < n
    ensures Moves(n, k + 1, i, RangesOf(n, k, if i > 0 then i - 1 else i), RangesOf(n, k, i), RangesOf(n, k + 1, i))
  {
    RangesShift(n, k, i);
    if i > 0 {
      SpillIsMultiple(n, k + 1, i - 1);
      if LevelShouldSpill(n, k + 1, i - 1) {
        RangesLand(n, k, i);
        RangesRestart(n, k, i);
      } else {
        RangesStand(n, k, i);
      }
    }
  }

  ghost predicate AllStep(rs: seq<Ranges>, rs': seq<Ranges>, c: nat) {
    && |rs'| == |rs|
    && forall i :: 0 <= i < |rs| ==> LevelStep(rs, rs', c, i)
  }

  lemma {:induction false} RangesStep(n: nat, k: nat)
    ensures AllStep(AllRanges(n, k), AllRanges(n, k + 1), k + 1)
  {
    var rs, rs', c := AllRanges(n, k), AllRanges(n, k + 1), k + 1;
    forall i | 0 <= i < n
      ensures LevelStep(rs, rs', c, i)
    {
      RangesMove(n, k, i);
    }
  }

  // ----- Closing a ledger keeps the invariant -----

  /** Level 0 takes the ledger's own batch. */
  lemma {:induction false} CloseLevelZero<K(!new), V>(hist: seq<Bucket<K, V>>, levels: seq<Level<K, V>>,
                                                      rs: seq<Ranges>, rs': seq<Ranges>, batch: Bucket<K, V>)
    requires ListCovers(hist, levels, rs) && Chained(rs, |hist|) && |rs'| == |rs|
    requires LevelStep(rs, rs', |hist| + 1, 0)
    ensures LevelCovers(hist + [batch], Closed(levels, |hist| + 1, batch, 0), rs'[0])
  {
    var n, c, l := |levels|, |hist| + 1, levels[0];
    var spills := LevelShouldSpill(n, c, 0);
    LevelLater(hist, batch, l, rs[0]);
    SnappedCovers(hist + [batch], l, rs[0], rs'[0], spills);
    BatchCovers(hist, batch);
    MergeCovers(SnappedIf(spills, l).curr, batch, [], KeepDeadEntries(n, 0), hist + [batch], rs'[0].currLo, |hist|, c,
      rs[0].last);
  }

  /** What level i - 1 has just spilled lies right above curr(i). */
  lemma {:induction false} SpilledAbove<K(!new), V>(hist: seq<Bucket<K, V>>, levels: seq<Level<K, V>>, rs: seq<Ranges>,
                                                    batch: Bucket<K, V>, i: nat)
    requires ListCovers(hist, levels, rs) && Chained(rs, |hist|) && 0 < i < |rs|
    ensures Covers(levels[i - 1].curr, hist + [batch], rs[i - 1].currLo, rs[i - 1].currHi, false)
    ensures ShadowsAfter(Shadows(levels, i - 1), hist + [batch], rs[i - 1].currHi)
  {
    var lo, hi := rs[i - 1].currLo, rs[i - 1].currHi;
    CoversLater(levels[i - 1].curr, hist, batch, lo, hi, rs[i - 1].last);
    ShadowsAreNewer(hist, levels, rs, i - 1, hi);
    ShadowsLater(Shadows(levels, i - 1), hist, batch, hi);
  }

  lemma {:induction false} ClosedForm<K, V>(levels: seq<Level<K, V>>, c: nat, batch: Bucket<K, V>, i: nat)
    requires 0 < i < |levels| && LevelShouldSpill(|levels|, c, i - 1)
    ensures var n := |levels|;
            var m := Committed(SnappedIf(LevelShouldSpill(n, c, i), levels[i]));
            Closed(levels, c, batch, i) ==
            m.(next := LiveInputs(if LevelShouldSpill(n, c + LevelHalf(i - 1), i) then map[] else m.curr,
                                  levels[i - 1].curr, Shadows(levels, i - 1), !(i == n - 1)))
  {
  }

  lemma {:induction false} CloseLevelSpilledInto<K(!new), V>(hist: seq<Bucket<K, V>>, levels: seq<Level<K, V>>,
      rs: seq<Ranges>, rs': seq<Ranges>, batch: Bucket<K, V>, i: nat)
    requires ListCovers(hist, levels, rs) && Chained(rs, |hist|) && |rs'| == |rs| && 0 < i < |rs|
    requires LevelStep(rs, rs', |hist| + 1, i) && LevelShouldSpill(|levels|, |hist| + 1, i - 1)
    ensures LevelCovers(hist + [batch], Closed(levels, |hist| + 1, batch, i), rs'[i])
  {
    var n, c := |levels|, |hist| + 1;
    SpilledAbove(hist, levels, rs, batch, i);
    SpilledIntoCovers(hist, batch, levels[i], rs[i], rs'[i], LevelShouldSpill(n, c, i),
      LevelShouldSpill(n, c + LevelHalf(i - 1), i),
                      levels[i - 1].curr, Shadows(levels, i - 1));
    ClosedForm(levels, c, batch, i);
  }

  lemma {:induction false} CloseLedgerOk<K(!new), V>(n: nat, hist: seq<Bucket<K, V>>, levels: seq<Level<K, V>>,
                                                     batch: Bucket<K, V>)
    requires ListOk(n, hist, levels)
    ensures ListOk(n, hist + [batch], CloseLedger(levels, |hist| + 1, batch))
  {
    if n > 0 {
      RangesChained(n, |hist|);
      RangesStep(n, |hist|);
      CloseCovers(hist, levels, AllRanges(n, |hist|), AllRanges(n, |hist| + 1), batch);
      OkIfCovers(n, hist + [batch], CloseLedger(levels, |hist| + 1, batch), |hist| + 1);
    }
  }

  lemma {:induction false} OkIfCovers<K(!new), V>(n: nat, hist: seq<Bucket<K, V>>, levels: seq<Level<K, V>>, k: nat)
    requires k == |hist| && ListCovers(hist, levels, AllRanges(n, k))
    ensures ListOk(n, hist, levels)
  {
  }

  lemma {:induction false} CloseCovers<K(!new), V>(hist: seq<Bucket<K, V>>, levels: seq<Level<K, V>>, rs: seq<Ranges>,
                                                   rs': seq<Ranges>, batch: Bucket<K, V>)
    requires ListCovers(hist, levels, rs) && Chained(rs, |hist|)
    requires AllStep(rs, rs', |hist| + 1)
    ensures ListCovers(hist + [batch], CloseLedger(levels, |hist| + 1, batch), rs')
  {
    var after := CloseLedger(levels, |hist| + 1, batch);
    forall i | 0 <= i < |rs|
      ensures LevelCovers(hist + [batch], after[i], rs'[i])
    {
      CloseLevelOk(hist, levels, rs, rs', batch, i);
    }
  }

  lemma {:induction false} CloseLevelOk<K(!new), V>(hist: seq<Bucket<K, V>>, levels: seq<Level<K, V>>, rs: seq<Ranges>,
                                                    rs': seq<Ranges>, batch: Bucket<K, V>, i: nat)
    requires ListCovers(hist, levels, rs) && Chained(rs, |hist|) && |rs'| == |rs| && i < |rs|
    requires LevelStep(rs, rs', |hist| + 1, i)
    ensures LevelCovers(hist + [batch], Closed(levels, |hist| + 1, batch, i), rs'[i])
  {
    if i == 0 {
      CloseLevelZero(hist, levels, rs, rs', batch);
    } else if LevelShouldSpill(|levels|, |hist| + 1, i - 1) {
      CloseLevelSpilledInto(hist, levels, rs, rs', batch, i);
    } else {
      LevelLater(hist, batch, levels[i], rs[i]);
    }
  }

  /** In every reachable list each bucket covers exactly the ledgers that the
      size accounting says it does. */
  lemma {:induction false} RunOk<K(!new), V>(n: nat, hist: seq<Bucket<K, V>>)
    ensures ListOk(n, hist, Run(n, hist))
  {
    if hist == [] {
      InitialOk<K, V>(n);
    } else {
      var prev, batch := hist[..|hist| - 1], hist[|hist| - 1];
      RunOk(n, prev);
      CloseLedgerOk(n, prev, Run(n, prev), batch);
      assert hist == prev + [batch];
    }
  }

  // ----- What a merge holds, exactly -----

  /** A key that no level above has was not changed after ledger `after`. */
  lemma {:induction false} NotHeldNotChanged<K(!new), V>(hist: seq<Bucket<K, V>>, levels: seq<Level<K, V>>,
                                                         rs: seq<Ranges>, m: nat, k: K)
    requires ListCovers(hist, levels, rs) && Chained(rs, |hist|) && m < |rs| && !HeldAbove(levels, m, k)
    ensures Newest(hist, rs[m].currHi, |hist|, k).None?
  {
    if m > 0 {
      NotHeldNotChanged(hist, levels, rs, m - 1, k);
      LevelAnswers(hist, levels[m - 1], rs[m - 1], k);
    }
  }

  lemma {:induction false} HeldIsChanged<K(!new), V>(hist: seq<Bucket<K, V>>, levels: seq<Level<K, V>>,
                                                     rs: seq<Ranges>, m: nat, k: K)
    requires ListCovers(hist, levels, rs) && Chained(rs, |hist|) && m < |rs| && HeldAbove(levels, m, k)
    ensures Newest(hist, rs[m].currHi, |hist|, k).Some?
  {
    ShadowsAreNewer(hist, levels, rs, m, rs[m].currHi);
    ShadowedIffHeld(levels, m, k);
  }

  /** The levels above have exactly the keys that were changed since. */
  lemma {:induction false} HeldIffChanged<K(!new), V>(hist: seq<Bucket<K, V>>, levels: seq<Level<K, V>>,
                                                      rs: seq<Ranges>, m: nat, k: K)
    requires ListCovers(hist, levels, rs) && Chained(rs, |hist|) && m < |rs|
    ensures HeldAbove(levels, m, k) <==> Newest(hist, rs[m].currHi, |hist|, k).Some?
  {
    if HeldAbove(levels, m, k) {
      HeldIsChanged(hist, levels, rs, m, k);
    } else {
      NotHeldNotChanged(hist, levels, rs, m, k);
    }
  }

  /** The merge begun at a spill, seen from before the ledger of the spill. */
  lemma {:induction false} BegunCovers<K(!new), V>(hist: seq<Bucket<K, V>>, levels: seq<Level<K, V>>,
      rs: seq<Ranges>, rs': seq<Ranges>, batch: Bucket<K, V>, i: nat)
    requires ListCovers(hist, levels, rs) && Chained(rs, |hist|) && |rs'| == |rs| && 0 < i < |rs|
    requires LevelStep(rs, rs', |hist| + 1, i) && LevelShouldSpill(|levels|, |hist| + 1, i - 1)
    ensures LevelCovers(hist, Closed(levels, |hist| + 1, batch, i), rs'[i])
  {
    var n, c := |levels|, |hist| + 1;
    var spills := LevelShouldSpill(n, c, i);
    CommittedCovers(hist, levels[i], rs[i], rs'[i], spills);
    ShadowsAreNewer(hist, levels, rs, i - 1, rs[i - 1].currHi);
    StartedCovers(hist, Committed(SnappedIf(spills, levels[i])), rs'[i], LevelShouldSpill(n, c + LevelHalf(i - 1), i),
      levels[i - 1].curr, Shadows(levels, i - 1));
    ClosedForm(levels, c, batch, i);
  }

  lemma {:induction false} BegunExactly<K(!new), V>(hist: seq<Bucket<K, V>>, levels: seq<Level<K, V>>,
      rs: seq<Ranges>, rs': seq<Ranges>, batch: Bucket<K, V>, i: nat, k: K)
    requires ListCovers(hist, levels, rs) && Chained(rs, |hist|) && |rs'| == |rs| && 0 < i < |rs|
    requires LevelStep(rs, rs', |hist| + 1, i) && LevelShouldSpill(|levels|, |hist| + 1, i - 1)
    ensures var next, r := Closed(levels, |hist| + 1, batch, i).next, rs'[i];
            && next.IsLive() && r.nextHi <= |hist|
            && Look(next.Outcome(), k) ==
               if Newest(hist, r.nextHi, |hist|, k).Some? then None
               else Kept(Newest(hist, r.nextLo, r.nextHi, k), r.last)
  {
    BegunCovers(hist, levels, rs, rs', batch, i);
    var next, r := Closed(levels, |hist| + 1, batch, i).next, rs'[i];
    assert CoversKey(next.Outcome(), hist, r.nextLo, r.nextHi, r.last, k);
    HeldIffChanged(hist, levels, rs, i - 1, k);
    ClosedIsLevelClosed(levels, |hist| + 1, batch, i);
  }

  /** What a merge with these ranges holds for a key, if it is begun with ledger c. */
  ghost predicate HoldsExactly<K, V>(b: Bucket<K, V>, hist: seq<Bucket<K, V>>, r: Ranges, c: nat, k: K) {
    && r.nextHi < c <= |hist| + 1
    && Look(b, k) ==
       if Newest(hist, r.nextHi, c - 1, k).Some? then None else Kept(Newest(hist, r.nextLo, r.nextHi, k), r.last)
  }

  lemma {:induction false} BegunInRun<K(!new), V>(n: nat, prev: seq<Bucket<K, V>>, levels: seq<Level<K, V>>,
                                                  batch: Bucket<K, V>, i: nat, k: K)
    requires levels == Run(n, prev) && 0 < i < n && LevelShouldSpill(n, |prev| + 1, i - 1)
    ensures var next := Closed(levels, |prev| + 1, batch, i).next;
            next.IsLive() && HoldsExactly(next.Outcome(), prev, RangesOf(n, |prev| + 1, i), |prev| + 1, k)
  {
    var c := |prev| + 1;
    var rs, rs' := AllRanges(n, c - 1), AllRanges(n, c);
    RunOk(n, prev);
    RangesChained(n, c - 1);
    RangesStep(n, c - 1);
    assert LevelStep(rs, rs', c, i) && rs'[i] == RangesOf(n, c, i);
    BegunExactly(prev, levels, rs, rs', batch, i, k);
  }

  lemma {:induction false} HoldsLater<K, V>(b: Bucket<K, V>, prev: seq<Bucket<K, V>>, batch: Bucket<K, V>, r: Ranges,
                                            k: K)
    requires HoldsExactly(b, prev, r, |prev| + 1, k)
    ensures HoldsExactly(b, prev + [batch], r, |prev| + 1, k)
  {
    NewestPrefix(prev, batch, r.nextHi, |prev|, k);
    NewestPrefix(prev, batch, r.nextLo, r.nextHi, k);
  }

  /** In every run: a merge begun with ledger c for the ledgers (lo, hi] holds, for
      each key, the newest change of those ledgers, and nothing if a ledger from
      there up to c - 1 changes the key, or if it is a tombstone at the last level. */
  lemma {:induction false} MergeHoldsExactly<K(!new), V>(n: nat, hist: seq<Bucket<K, V>>, i: nat, k: K)
    requires hist != [] && 0 < i < n && LevelShouldSpill(n, |hist|, i - 1)
    ensures var next, r, c := Run(n, hist)[i].next, RangesOf(n, |hist|, i), |hist|;
            && next.IsLive() && r.nextHi < c
            && Look(next.Outcome(), k) ==
               if Newest(hist, r.nextHi, c - 1, k).Some? then None
               else Kept(Newest(hist, r.nextLo, r.nextHi, k), r.last)
  {
    var prev, batch := hist[..|hist| - 1], hist[|hist| - 1];
    assert hist == prev + [batch];
    var levels := Run(n, prev);
    BegunInRun(n, prev, levels, batch, i, k);
    HoldsLater(Closed(levels, |hist|, batch, i).next.Outcome(), prev, batch, RangesOf(n, |hist|, i), k);
  }

  // ----- Reading the list -----

  /** The first hit for a key from level i on: curr before snap. */
  function Lookup<K, V>(levels: seq<Level<K, V>>, i: nat, k: K): (r: Option<Slot<V>>)
    requires i <= |levels|
    decreases |levels| - i
  {
    if i == |levels| then None
    else if k in levels[i].curr then Some(levels[i].curr[k])
    else if k in levels[i].snap then Some(levels[i].snap[k])
    else Lookup(levels, i + 1, k)
  }

  function KeysFrom<K, V>(levels: seq<Level<K, V>>, i: nat): (s: set<K>)
    requires i <= |levels|
    decreases |levels| - i
  {
    if i == |levels| then {} else levels[i].curr.Keys + levels[i].snap.Keys + KeysFrom(levels, i + 1)
  }

  lemma {:induction false} LookupInKeys<K, V>(levels: seq<Level<K, V>>, i: nat, k: K)
    requires i <= |levels|
    ensures Lookup(levels, i, k).Some? <==> k in KeysFrom(levels, i)
    decreases |levels| - i
  {
    if i < |levels| {
      LookupInKeys(levels, i + 1, k);
    }
  }

  /** The map a bucket list denotes. */
  function FlatView<K, V>(levels: seq<Level<K, V>>): (m: map<K, V>) {
    map k | k in KeysFrom(levels, 0) && Lookup(levels, 0, k).Some? && Lookup(levels, 0, k).value.Live?
          :: Lookup(levels, 0, k).value.value
  }

  /** From level i on, the first hit is the newest change up to there, for any
      key that nothing above level i has changed. */
  lemma {:induction false} LookupIsNewest<K(!new), V>(hist: seq<Bucket<K, V>>, levels: seq<Level<K, V>>,
                                                      rs: seq<Ranges>, i: nat, key: K)
    requires ListCovers(hist, levels, rs) && Chained(rs, |hist|) && i < |rs|
    requires Newest(hist, rs[i].currHi, |hist|, key).None?
    ensures var r, s := Lookup(levels, i, key), Newest(hist, 0, rs[i].currHi, key);
            r == s || (r.None? && s == Some(Dead))
    decreases |rs| - i
  {
    var l, r := levels[i], rs[i];
    LevelAnswers(hist, l, r, key);
    if key !in l.curr && key !in l.snap {
      if i == |rs| - 1 {
        assert Lookup(levels, i + 1, key) == None;
      } else {
        LookupIsNewest(hist, levels, rs, i + 1, key);
      }
    }
  }

  /** What a level's own two buckets say about a key. */
  lemma {:induction false} LevelAnswers<K(!new), V>(hist: seq<Bucket<K, V>>, l: Level<K, V>, r: Ranges, key: K)
    requires LevelCovers(hist, l, r) && r.snapLo <= r.currLo <= r.currHi <= |hist|
    requires Newest(hist, r.currHi, |hist|, key).None?
    ensures key in l.curr ==> Newest(hist, 0, r.currHi, key) == Some(l.curr[key])
    ensures key !in l.curr && r.last ==> Newest(hist, r.currLo, r.currHi, key) in {None, Some(Dead)}
    ensures key !in l.curr && !r.last && key in l.snap ==> Newest(hist, 0, r.currHi, key) == Some(l.snap[key])
    ensures key !in l.curr && !r.last && key !in l.snap ==>
              Newest(hist, r.snapLo, |hist|, key).None?
                && Newest(hist, 0, r.currHi, key) == Newest(hist, 0, r.snapLo, key)
    ensures key in l.snap ==> r.snapLo < r.currLo
  {
    assert CoversKey(l.curr, hist, r.currLo, r.currHi, r.last, key);
    assert CoversKey(l.snap, hist, r.snapLo, r.currLo, false, key);
    NewestSplit(hist, 0, r.currLo, r.currHi, key);
    NewestSplit(hist, 0, r.snapLo, r.currLo, key);
    NewestSplit(hist, r.currLo, r.currHi, |hist|, key);
    NewestSplit(hist, r.snapLo, r.currLo, |hist|, key);
  }

  lemma {:induction false} FlatViewOk<K(!new), V>(n: nat, hist: seq<Bucket<K, V>>, levels: seq<Level<K, V>>)
    requires n >= 1 && ListOk(n, hist, levels)
    ensures FlatView(levels) == ApplyAll(hist)
  {
    RangesChained(n, |hist|);
    var rs := AllRanges(n, |hist|);
    forall k
      ensures k in FlatView(levels) <==> k in ApplyAll(hist)
      ensures k in ApplyAll(hist) ==> FlatView(levels)[k] == ApplyAll(hist)[k]
    {
      KeyAnswered(hist, levels, rs, k);
    }
  }

  lemma {:induction false} KeyAnswered<K(!new), V>(hist: seq<Bucket<K, V>>, levels: seq<Level<K, V>>, rs: seq<Ranges>,
                                                   k: K)
    requires ListCovers(hist, levels, rs) && Chained(rs, |hist|)
    ensures k in FlatView(levels) <==> k in ApplyAll(hist)
    ensures k in ApplyAll(hist) ==> FlatView(levels)[k] == ApplyAll(hist)[k]
  {
    LookupInKeys(levels, 0, k);
    LookupIsNewest(hist, levels, rs, 0, k);
    ApplyAllIsNewest(hist, k);
  }

  /** After any run, the list denotes the plain map of all its batches. */
  lemma {:induction false} FlatViewOfRun<K(!new), V>(n: nat, hist: seq<Bucket<K, V>>)
    requires n >= 1
    ensures FlatView(Run(n, hist)) == ApplyAll(hist)
  {
    RunOk(n, hist);
    FlatViewOk(n, hist, Run(n, hist));
  }
}
