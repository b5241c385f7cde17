/** The bucket list: levels of curr, snap and a pending merge, and the walk
    over the levels that closes a ledger (src/bucket/BucketList.cpp). */
module BucketList {
  import opened BucketFile
  import opened LevelArithmetic

  type Hash = nat

  /** FutureBucket's five states, with what each holds. The merge itself runs on
      another thread; its outcome is fixed by its inputs. */
  datatype Future<!K, V> =
    | Clear
    | HashOutput(outputHash: Hash)
    | HashInputs(currHash: Hash, snapHash: Hash, shadowHashes: seq<Hash>)
    | LiveOutput(output: Bucket<K, V>)
    | LiveInputs(curr: Bucket<K, V>, snap: Bucket<K, V>, shadows: seq<Bucket<K, V>>, keepDead: bool)
  {
    predicate IsLive() { LiveInputs? || LiveOutput? }

    predicate IsMerging() { LiveInputs? }

    function Outcome(): (b: Bucket<K, V>)
      requires IsLive()
    {
      if LiveOutput? then output else Merged(curr, snap, shadows, keepDead)
    }
  }

  datatype Level<!K, V> = Level(curr: Bucket<K, V>, snap: Bucket<K, V>, next: Future<K, V>)

  /** The buckets of the first m levels, newest first. */
  function Shadows<K, V>(levels: seq<Level<K, V>>, m: nat): (s: seq<Bucket<K, V>>)
    requires m <= |levels|
    ensures |s| == 2 * m
  {
    if m == 0 then [] else Shadows(levels, m - 1) + [levels[m - 1].curr, levels[m - 1].snap]
  }

  // ----- What closing a ledger does to each level, all levels at once -----

  function Snapped<K, V>(n: nat, ledger: nat, i: nat, l: Level<K, V>): (r: Level<K, V>) {
    if LevelShouldSpill(n, ledger, i) then l.(snap := l.curr, curr := map[]) else l
  }

  function Committed<K, V>(l: Level<K, V>): (r: Level<K, V>) {
    if l.next.IsLive() then l.(curr := l.next.Outcome(), next := Clear) else l
  }

  function Prepared<K, V>(n: nat, ledger: nat, i: nat, l: Level<K, V>, snap: Bucket<K, V>,
                          shadows: seq<Bucket<K, V>>): (r: Level<K, V>) {
    var curr := if i != 0 && LevelShouldSpill(n, ledger + LevelHalf(i - 1), i) then map[] else l.curr;
    l.(next := LiveInputs(curr, snap, shadows, KeepDeadEntries(n, i)))
  }

  /** Level i after closing a ledger, from the levels before. */
  function Closed<K, V>(levels: seq<Level<K, V>>, ledger: nat, batch: Bucket<K, V>, i: nat): (r: Level<K, V>)
    requires i < |levels|
  {
    var n := |levels|;
    var l := Snapped(n, ledger, i, levels[i]);
    if i == 0 then
      Committed(Prepared(n, ledger, 0, l, batch, []))
    else if LevelShouldSpill(n, ledger, i - 1) then
      Prepared(n, ledger, i, Committed(l), levels[i - 1].curr, Shadows(levels, i - 1))
    else l
  }

  function CloseLedger<K, V>(levels: seq<Level<K, V>>, ledger: nat, batch: Bucket<K, V>): (r: seq<Level<K, V>>)
    ensures |r| == |levels|
  {
    seq(|levels|, i requires 0 <= i < |levels| => Closed(levels, ledger, batch, i))
  }

  // ----- The same, as a reader of the levels sees it -----

  /** One of the first m levels has the key. */
  ghost predicate HeldAbove<K, V>(levels: seq<Level<K, V>>, m: nat, k: K)
    requires m <= |levels|
  {
    exists j :: 0 <= j < m && (k in levels[j].curr || k in levels[j].snap)
  }

  /** What a merge begun now comes to: for each key the newer entry if there is one,
      but nothing for a key that a level above has, and no tombstone at the end. */
  ghost predicate ComesTo<K(!new), V>(b: Bucket<K, V>, newer: Bucket<K, V>, older: Bucket<K, V>,
                                      levels: seq<Level<K, V>>, m: nat, keepDead: bool)
    requires m <= |levels|
  {
    forall k ::
      && (k in b <==>
            && (k in newer || k in older) && !HeldAbove(levels, m, k)
            && (keepDead || (if k in newer then newer[k] else older[k]).Live?))
      && (k in b ==> b[k] == if k in newer then newer[k] else older[k])
  }

  /** A merge of what level i - 1 spills with an older bucket is pending. */
  ghost predicate Begins<K(!new), V>(before: seq<Level<K, V>>, after: Level<K, V>, i: nat, older: Bucket<K, V>)
    requires 0 < i < |before|
  {
    && after.next.IsMerging()
    && ComesTo(after.next.Outcome(), before[i - 1].curr, older, before, i - 1, i < |before| - 1)
  }

  /** A level before and after a ledger closes. A level that spills moves its curr to
      snap. Where the level above spills, the pending merge becomes curr and a merge
      begins of what was spilled with curr, unless that is about to be spilled. */
  ghost predicate LevelClosed<K(!new), V>(before: seq<Level<K, V>>, after: Level<K, V>, ledger: nat,
                                          batch: Bucket<K, V>, i: nat)
    requires i < |before|
  {
    var n := |before|;
    if i == 0 then FirstMoves(before, after, batch, LevelShouldSpill(n, ledger, 0))
    else LevelMoves(before, after, i, LevelShouldSpill(n, ledger, i), LevelShouldSpill(n, ledger, i - 1),
               LevelShouldSpill(n, ledger + LevelHalf(i - 1), i))
  }

  ghost predicate FirstMoves<K(!new), V>(before: seq<Level<K, V>>, after: Level<K, V>, batch: Bucket<K, V>,
                                         spills: bool)
    requires before != []
  {
    && after.snap == (if spills then before[0].curr else before[0].snap) && after.next.Clear?
    && ComesTo(after.curr, batch, if spills then map[] else before[0].curr, before, 0, |before| > 1)
  }

  ghost predicate LevelMoves<K(!new), V>(before: seq<Level<K, V>>, after: Level<K, V>, i: nat, spills: bool,
                                    spilledInto: bool, spillsNext: bool)
    requires 0 < i < |before|
  {
    var rest := if spills then map[] else before[i].curr;
    && after.snap == (if spills then before[i].curr else before[i].snap)
    && after.curr == (if spilledInto && before[i].next.IsLive() then before[i].next.Outcome() else rest)
    && (if spilledInto then Begins(before, after, i, if spillsNext then map[] else after.curr)
        else after.next == before[i].next)
  }

  lemma {:induction false} ShadowedIffHeld<K, V>(levels: seq<Level<K, V>>, m: nat, k: K)
    requires m <= |levels|
    ensures Shadowed(Shadows(levels, m), k) <==> HeldAbove(levels, m, k)
  {
    if m > 0 {
      ShadowedIffHeld(levels, m - 1, k);
      var s, s' := Shadows(levels, m - 1), Shadows(levels, m);
      assert s' == s + [levels[m - 1].curr, levels[m - 1].snap];
      if Shadowed(s, k) {
        var j :| 0 <= j < |s| && k in s[j];
        assert k in s'[j];
      }
      if k in levels[m - 1].curr {
        assert k in s'[|s|];
      }
      if k in levels[m - 1].snap {
        assert k in s'[|s| + 1];
      }
      if HeldAbove(levels, m, k) && !HeldAbove(levels, m - 1, k) {
        var j :| 0 <= j < m && (k in levels[j].curr || k in levels[j].snap);
        assert j == m - 1;
      }
    }
  }

  lemma {:induction false} MergedComesTo<K(!new), V>(newer: Bucket<K, V>, older: Bucket<K, V>,
                                                     levels: seq<Level<K, V>>, m: nat, keepDead: bool)
    requires m <= |levels|
    ensures ComesTo(Merged(older, newer, Shadows(levels, m), keepDead), newer, older, levels, m, keepDead)
  {
    var shadows := Shadows(levels, m);
    forall k
      ensures (forall s :: 0 <= s < |shadows| ==> k !in shadows[s]) <==> !HeldAbove(levels, m, k)
    {
      ShadowedIffHeld(levels, m, k);
    }
  }

  lemma {:induction false} ClosedZero<K(!new), V>(levels: seq<Level<K, V>>, ledger: nat, batch: Bucket<K, V>)
    requires levels != []
    ensures LevelClosed(levels, Closed(levels, ledger, batch, 0), ledger, batch, 0)
  {
    var n := |levels|;
    MergedComesTo(batch, if LevelShouldSpill(n, ledger, 0) then map[] else levels[0].curr, levels, 0, n > 1);
  }

  lemma {:induction false} ClosedParts<K, V>(levels: seq<Level<K, V>>, ledger: nat, batch: Bucket<K, V>, i: nat,
                                             spills: bool, spilledInto: bool, spillsNext: bool)
    requires 0 < i < |levels| && spills == LevelShouldSpill(|levels|, ledger, i)
    requires spilledInto == LevelShouldSpill(|levels|, ledger, i - 1)
    requires spillsNext == LevelShouldSpill(|levels|, ledger + LevelHalf(i - 1), i)
    ensures var l, r := levels[i], Closed(levels, ledger, batch, i);
            && r.snap == (if spills then l.curr else l.snap)
            && r.curr == (if spilledInto && l.next.IsLive() then l.next.Outcome() else if spills then map[] else l.curr)
            && r.next ==
               if spilledInto then LiveInputs(if spillsNext then map[] else r.curr, levels[i - 1].curr,
                                              Shadows(levels, i - 1), i < |levels| - 1)
               else l.next
  {
  }

  lemma {:induction false} PreparedBegins<K(!new), V>(levels: seq<Level<K, V>>, after: Level<K, V>, i: nat,
                                                      older: Bucket<K, V>)
    requires 0 < i < |levels|
    requires after.next == LiveInputs(older, levels[i - 1].curr, Shadows(levels, i - 1), i < |levels| - 1)
    ensures Begins(levels, after, i, older)
  {
    MergedComesTo(levels[i - 1].curr, older, levels, i - 1, i < |levels| - 1);
  }

  lemma {:induction false} ClosedIsLevelClosed<K(!new), V>(levels: seq<Level<K, V>>, ledger: nat,
                                                           batch: Bucket<K, V>, i: nat)
    requires i < |levels|
    ensures LevelClosed(levels, Closed(levels, ledger, batch, i), ledger, batch, i)
  {
    if i == 0 {
      ClosedZero(levels, ledger, batch);
    } else {
      var spills, spilledInto := LevelShouldSpill(|levels|, ledger, i), LevelShouldSpill(|levels|, ledger, i - 1);
      var spillsNext := LevelShouldSpill(|levels|, ledger + LevelHalf(i - 1), i);
      ClosedParts(levels, ledger, batch, i, spills, spilledInto, spillsNext);
      PartsMove(levels, Closed(levels, ledger, batch, i), i, spills, spilledInto, spillsNext);
    }
  }

  lemma {:induction false} PartsMove<K(!new), V>(levels: seq<Level<K, V>>, r: Level<K, V>, i: nat, spills: bool,
                                                 spilledInto: bool, spillsNext: bool)
    requires 0 < i < |levels| && r.snap == (if spills then levels[i].curr else levels[i].snap)
    requires r.curr == if spilledInto && levels[i].next.IsLive() then levels[i].next.Outcome()
                       else if spills then map[] else levels[i].curr
    requires r.next ==
             if spilledInto then LiveInputs(if spillsNext then map[] else r.curr, levels[i - 1].curr,
                                            Shadows(levels, i - 1), i < |levels| - 1)
             else levels[i].next
    ensures LevelMoves(levels, r, i, spills, spilledInto, spillsNext)
  {
    if spilledInto {
      PreparedBegins(levels, r, i, if spillsNext then map[] else r.curr);
    }
  }

  lemma {:induction false} AllLevelsClosed<K(!new), V>(before: seq<Level<K, V>>, after: seq<Level<K, V>>, ledger: nat,
                                                       batch: Bucket<K, V>)
    requires after == CloseLedger(before, ledger, batch)
    ensures forall i :: 0 <= i < |after| ==> LevelClosed(before, after[i], ledger, batch, i)
  {
    forall i | 0 <= i < |after|
      ensures LevelClosed(before, after[i], ledger, batch, i)
    {
      ClosedIsLevelClosed(before, ledger, batch, i);
    }
  }

  // ----- The program's walk -----

  class List<K(==, !new), V(==)> {
    var levels: seq<Level<K, V>>

    constructor (n: nat)
      ensures levels == Initial(n)
    {
      levels := Initial(n);
    }

    method SnapLevel(i: nat) returns (b: Bucket<K, V>)
      requires i < |levels|
      modifies this
      ensures levels == old(levels)[i := old(levels)[i].(snap := old(levels)[i].curr, curr := map[])]
      ensures b == old(levels)[i].curr
    {
      levels := levels[i := levels[i].(snap := levels[i].curr)];
      levels := levels[i := levels[i].(curr := map[])];
      return levels[i].snap;
    }

    method SetCurr(i: nat, b: Bucket<K, V>)
      requires i < |levels|
      modifies this
      ensures levels == old(levels)[i := old(levels)[i].(curr := b, next := Clear)]
    {
      levels := levels[i := levels[i].(next := Clear)];
      levels := levels[i := levels[i].(curr := b)];
    }

    method Commit(i: nat)
      requires i < |levels|
      modifies this
      ensures levels == old(levels)[i := Committed(old(levels)[i])]
      ensures !levels[i].next.IsMerging()
    {
      if levels[i].next.IsLive() {
        SetCurr(i, levels[i].next.Outcome());
      }
    }

    /** The precondition on the pending merge is the program's own assert. */
    method Prepare(i: nat, ledger: nat, snap: Bucket<K, V>, shadows: seq<Bucket<K, V>>)
      requires i < |levels| && !levels[i].next.IsMerging()
      modifies this
      ensures levels == old(levels)[i := Prepared(|old(levels)|, ledger, i, old(levels)[i], snap, shadows)]
      ensures levels[i].next.IsMerging()
    {
      var curr := levels[i].curr;
      if i != 0 {
        var nextChangeLedger := ledger + LevelHalf(i - 1);
        if LevelShouldSpill(|levels|, nextChangeLedger, i) {
          curr := map[];
        }
      }
      levels := levels[i := levels[i].(next := LiveInputs(curr, snap, shadows, KeepDeadEntries(|levels|, i)))];
    }

    method CollectShadows() returns (shadows: seq<Bucket<K, V>>)
      ensures shadows == Shadows(levels, |levels|)
    {
      shadows := [];
      for l := 0 to |levels|
        invariant shadows == Shadows(levels, l)
      {
        shadows := shadows + [levels[l].curr];
        shadows := shadows + [levels[l].snap];
      }
    }

    /** One step of the walk: level i - 1 may spill into level i. */
    method SpillInto(i: nat, ledger: nat, shadows: seq<Bucket<K, V>>)
      requires 0 < i < |levels|
      modifies this
      ensures |levels| == |old(levels)|
      ensures forall j :: 0 <= j < |levels| && j != i && j != i - 1 ==> levels[j] == old(levels)[j]
      ensures levels[i - 1] == Snapped(|levels|, ledger, i - 1, old(levels)[i - 1])
      ensures levels[i] ==
              if LevelShouldSpill(|levels|, ledger, i - 1)
              then Prepared(|levels|, ledger, i, Committed(old(levels)[i]), old(levels)[i - 1].curr, shadows)
              else old(levels)[i]
    {
      if LevelShouldSpill(|levels|, ledger, i - 1) {
        var snap := SnapLevel(i - 1);
        Commit(i);
        Prepare(i, ledger, snap, shadows);
      }
    }

    /** The walk from the deepest level up to level 1. */
    method SpillAll(ledger: nat, ghost batch: Bucket<K, V>) returns (shadows: seq<Bucket<K, V>>)
      requires ledger > 0 && |levels| >= 1
      modifies this
      ensures |levels| == |old(levels)| && shadows == []
      ensures levels[0] == Snapped(|levels|, ledger, 0, old(levels)[0])
      ensures forall j :: 0 < j < |levels| ==> levels[j] == Closed(old(levels), ledger, batch, j)
    {
      ghost var before := levels;
      var n := |levels|;
      shadows := CollectShadows();
      shadows := shadows[..|shadows| - 2];
      var i := n - 1;
      while i != 0
        invariant 0 <= i < n == |levels|
        invariant shadows == Shadows(before, i)
        invariant forall j :: 0 <= j < i ==> levels[j] == before[j]
        invariant levels[i] == Snapped(n, ledger, i, before[i])
        invariant forall j :: i < j < n ==> levels[j] == Closed(before, ledger, batch, j)
      {
        shadows := shadows[..|shadows| - 2];
        SpillInto(i, ledger, shadows);
        i := i - 1;
      }
    }

    /** Walking from the deepest level to the shallowest has the effect of
        changing all levels at once from their state before. */
    method AddBatch(ledger: nat, batch: Bucket<K, V>)
      requires ledger > 0 && |levels| >= 1
      requires !levels[0].next.IsMerging()
      modifies this
      ensures levels == CloseLedger(old(levels), ledger, batch)
      ensures forall i :: 0 <= i < |levels| ==> LevelClosed(old(levels), levels[i], ledger, batch, i)
    {
      ghost var before := levels;
      var shadows := SpillAll(ledger, batch);
      Prepare(0, ledger, batch, shadows);
      Commit(0);
      AllLevelsClosed(before, levels, ledger, batch);
    }
  }

  function Initial<K, V>(n: nat): (levels: seq<Level<K, V>>)
    ensures |levels| == n
  {
    seq(n, _ => Level(map[], map[], Clear))
  }

  /** The list after closing ledgers 1 to |hist| with these batches. */
  function Run<K, V>(n: nat, hist: seq<Bucket<K, V>>): (levels: seq<Level<K, V>>)
    ensures |levels| == n
  {
    if hist == [] then Initial(n)
    else CloseLedger(Run(n, hist[..|hist| - 1]), |hist|, hist[|hist| - 1])
  }
}
