/** The mutually recursive size accounting of src/bucket/BucketList.cpp,
    proved to count exactly the ledgers each bucket holds. Sizes are `nat`, so
    that every subtraction below is also shown not to wrap around. */
module LevelSizes {
  import opened LevelArithmetic

  const UINT32_MAX: nat := 0xFFFF_FFFF

  function Max(a: nat, b: nat): (m: nat) {
    if a < b then b else a
  }

  /** The last ledger at which curr(level) can have changed before `ledger`. */
  function PreviousRelevantLedger(ledger: nat, level: nat): (p: nat)
    requires level > 0 && ledger > 0
  {
    Max(Max(Mask(ledger - 1, LevelHalf(level - 1)), Mask(ledger - 1, LevelSize(level - 1))),
        Max(Mask(ledger - 1, LevelHalf(level)), Mask(ledger - 1, LevelSize(level))))
  }

  lemma {:induction false} PreviousRelevantIsFinest(ledger: nat, level: nat)
    requires level > 0 && ledger > 0
    ensures PreviousRelevantLedger(ledger, level) == Mask(ledger - 1, LevelHalf(level - 1))
  {
    var h := LevelHalf(level - 1);
    MaskDouble(ledger - 1, h);
    MaskDouble(ledger - 1, 2 * h);
    MaskDouble(ledger - 1, 4 * h);
  }

  /** A just-spilled level holds one batch of the level above it. */
  lemma {:induction false} CurrAfterSpill(n: nat, k: nat, i: nat)
    requires 0 < i < n - 1 && k > 0 && Multiple(k, LevelHalf(i)) && k >= LevelHalf(i)
    ensures CurrTop(n, k, i) - SnapTop(n, k, i) == LevelHalf(i - 1)
  {
    SnapAtSpill(k - 1, i);
    CoarserSpill(k, i);
    OneMoreBatch(k - 1, i - 1);
  }

  /** A spill moves the far end of the older neighbour by one half-level. */
  lemma {:induction false} OneMoreBatch(k: nat, level: nat)
    requires Multiple(k + 1, LevelHalf(level)) && k + 1 >= LevelSize(level)
    ensures SnapOldestLess1(k + 1, level) == k + 1 - LevelHalf(level) - SnapLag(level)
  {
    MaskStep(k, LevelHalf(level));
  }

  /** Between spills curr(i) grows by one batch at each spill of level i - 1. */
  lemma {:induction false} CurrBetweenSpills(n: nat, k: nat, i: nat)
    requires 0 < i < n - 1 && !Multiple(k, LevelHalf(i)) && Mask(k, LevelHalf(i)) != 0
    ensures var p := Mask(k - 1, LevelHalf(i - 1));
            && 0 < p < k
            && CurrTop(n, k, i) - SnapTop(n, k, i) ==
               CurrTop(n, p, i) - SnapTop(n, p, i) + (if Multiple(k, LevelHalf(i - 1)) then LevelHalf(i - 1) else 0)
  {
    SamePeriod(k, i);
    SameSnap(k, Mask(k - 1, LevelHalf(i - 1)), i);
    NeighbourStep(k, i - 1);
  }

  lemma {:induction false} NeighbourStep(k: nat, level: nat)
    requires k > 0 && Mask(k - 1, LevelHalf(level)) >= LevelSize(level)
    ensures SnapOldestLess1(k, level) ==
            SnapOldestLess1(Mask(k - 1, LevelHalf(level)), level) +
              (if Multiple(k, LevelHalf(level)) then LevelHalf(level) else 0)
  {
    var h, p := LevelHalf(level), Mask(k - 1, LevelHalf(level));
    MaskMultiple(k - 1, h);
    MaskStep(k - 1, h);
    if Multiple(k, h) {
      OneMoreBatch(k - 1, level);
      OneMoreBatch(p - 1, level);
    } else {
      SameSnap(k, p, level);
    }
  }

  lemma {:induction false} SamePeriod(k: nat, i: nat)
    requires 0 < i && !Multiple(k, LevelHalf(i)) && Mask(k, LevelHalf(i)) != 0
    ensures var p := Mask(k - 1, LevelHalf(i - 1));
            && LevelSize(i - 1) <= p < k
            && Mask(p, LevelHalf(i)) == Mask(k, LevelHalf(i))
  {
    var h, p := LevelHalf(i), Mask(k - 1, LevelHalf(i - 1));
    MaskZeroOrHalf(k, i);
    MaskStep(k - 1, h);
    CoarserSpill(k - 1, i);
    MaskBetween(k, p, h);
  }

  lemma {:induction false} SameSnap(k: nat, p: nat, level: nat)
    requires Mask(k, LevelHalf(level)) == Mask(p, LevelHalf(level))
    ensures SnapNewest(k, level) == SnapNewest(p, level)
    ensures SnapOldestLess1(k, level) == SnapOldestLess1(p, level)
  {
  }

  lemma {:induction false} SizeFromPrevious(n: nat, k: nat, i: nat)
    requires 0 < i < n - 1 && !Multiple(k, LevelHalf(i)) && Mask(k, LevelHalf(i)) != 0
    ensures var p := PreviousRelevantLedger(k, i);
            && 0 < p < k
            && CurrTop(n, k, i) - SnapTop(n, k, i) ==
               CurrTop(n, p, i) - SnapTop(n, p, i) +
               (if Mask(k, LevelHalf(i - 1)) == k || Mask(k, LevelSize(i - 1)) == k then LevelHalf(i - 1) else 0)
  {
    PreviousRelevantIsFinest(k, i);
    CurrBetweenSpills(n, k, i);
    BoundaryIsMultiple(k, i - 1);
  }

  lemma {:induction false} BoundaryIsMultiple(k: nat, level: nat)
    ensures Mask(k, LevelHalf(level)) == k || Mask(k, LevelSize(level)) == k <==> Multiple(k, LevelHalf(level))
  {
    MaskDouble(k, LevelHalf(level));
  }

  method SizeOfCurr(n: nat, ledger: nat, level: nat) returns (size: nat)
    requires n >= 2 && ledger != 0 && level < n
    ensures size == CurrTop(n, ledger, level) - SnapTop(n, ledger, level)
    decreases level, 1, ledger
  {
    if level == 0 {
      LevelZero(ledger);
      return if ledger == 1 then 1 else 1 + ledger % 2;
    }
    var half := LevelHalf(level);
    if level != n - 1 && Mask(ledger, half) != 0 {
      var sizeDelta := Pow2(2 * level - 1);
      LevelSizeIsShift(level - 1);
      BoundaryIsMultiple(ledger, level);
      if Mask(ledger, half) == ledger || Mask(ledger, LevelSize(level)) == ledger {
        CurrAfterSpill(n, ledger, level);
        return sizeDelta;
      }
      var previousRelevantLedger := PreviousRelevantLedger(ledger, level);
      SizeFromPrevious(n, ledger, level);
      var previous := SizeOfCurr(n, previousRelevantLedger, level);
      if Mask(ledger, LevelHalf(level - 1)) == ledger || Mask(ledger, LevelSize(level - 1)) == ledger {
        return previous + sizeDelta;
      } else {
        return previous;
      }
    } else {
      var blsize := SizeAbove(n, ledger, level);
      return ledger - blsize;
    }
  }

  /** The loop both size functions run: what the levels above hold together. */
  method SizeAbove(n: nat, ledger: nat, level: nat) returns (size: nat)
    requires n >= 2 && ledger != 0 && level < n
    ensures size == ledger - CurrTop(n, ledger, level)
    decreases level, 0, ledger
  {
    size := 0;
    for l := 0 to level
      invariant size == ledger - CurrTop(n, ledger, l)
    {
      var curr := SizeOfCurr(n, ledger, l);
      var snap := SizeOfSnap(n, ledger, l);
      size := size + curr + snap;
    }
  }

  lemma {:induction false} LevelZero(k: nat)
    requires k > 0
    ensures k - SnapNewest(k, 0) == if k == 1 then 1 else 1 + k % 2
  {
    MaskIsMod(k, 2);
  }

  method SizeOfSnap(n: nat, ledger: nat, level: nat) returns (size: nat)
    requires n >= 2 && ledger != 0 && level < n
    ensures size == SnapTop(n, ledger, level) - CurrTop(n, ledger, level + 1)
    decreases level, 2, ledger
  {
    if level == n - 1 {
      return 0;
    }
    SnapFull(ledger, level);
    if Mask(ledger, LevelSize(level)) != 0 {
      return LevelHalf(level);
    }
    var sum := SizeAbove(n, ledger, level);
    var curr := SizeOfCurr(n, ledger, level);
    return ledger - (sum + curr);
  }

  lemma {:induction false} SnapFull(k: nat, level: nat)
    ensures SnapNewest(k, level) - SnapOldestLess1(k, level) ==
            if Mask(k, LevelSize(level)) != 0 then LevelHalf(level) else SnapNewest(k, level)
  {
    var h, s := LevelHalf(level), LevelSize(level);
    MaskDouble(k, h);
    MaskZeroOrHalf(k, level);
  }

  /** The first ledger held by curr(level), or UINT32_MAX when it holds none. */
  method OldestLedgerInCurr(n: nat, ledger: nat, level: nat) returns (oldest: nat)
    requires n >= 2 && ledger != 0 && level < n
    ensures oldest == if CurrTop(n, ledger, level) == SnapTop(n, ledger, level) then UINT32_MAX
                      else SnapTop(n, ledger, level) + 1
  {
    var size := SizeOfCurr(n, ledger, level);
    if size == 0 {
      return UINT32_MAX;
    }
    var count := ledger;
    for l := 0 to level
      invariant count == CurrTop(n, ledger, l)
    {
      var curr := SizeOfCurr(n, ledger, l);
      var snap := SizeOfSnap(n, ledger, l);
      count := count - curr;
      count := count - snap;
    }
    count := count - size;
    return count + 1;
  }

  /** The first ledger held by snap(level), or UINT32_MAX when it holds none. */
  method OldestLedgerInSnap(n: nat, ledger: nat, level: nat) returns (oldest: nat)
    requires n >= 2 && ledger != 0 && level < n
    ensures oldest == if SnapTop(n, ledger, level) == CurrTop(n, ledger, level + 1) then UINT32_MAX
                      else CurrTop(n, ledger, level + 1) + 1
  {
    var size := SizeOfSnap(n, ledger, level);
    if size == 0 {
      return UINT32_MAX;
    }
    var count := ledger;
    for l := 0 to level + 1
      invariant count == CurrTop(n, ledger, l)
    {
      var curr := SizeOfCurr(n, ledger, l);
      var snap := SizeOfSnap(n, ledger, l);
      count := count - curr;
      count := count - snap;
    }
    return count + 1;
  }
}
