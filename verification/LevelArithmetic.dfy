/** Which ledgers each bucket of a bucket list holds, in closed form, and the
    recursive accounting of src/bucket/BucketList.cpp that computes the same
    numbers. Masking with a power of two, `v & ~(m - 1)`, is `Mask`. */
module LevelArithmetic {

  /** Half of 4, 16, 64, ...: what a level's curr may hold before it spills. */
  function LevelHalf(level: nat): (h: nat)
    ensures h >= 2
  {
    if level == 0 then 2 else 4 * LevelHalf(level - 1)
  }

  function LevelSize(level: nat): (s: nat)
    ensures s >= 4
  {
    2 * LevelHalf(level)
  }

  function Pow2(e: nat): (r: nat)
    ensures r > 0
  {
    if e == 0 then 1 else 2 * Pow2(e - 1)
  }

  /** The program writes these numbers as shifts of 1. */
  lemma {:induction false} LevelSizeIsShift(level: nat)
    ensures LevelSize(level) == Pow2(2 * (level + 1))
    ensures LevelHalf(level) == LevelSize(level) / 2 == Pow2(2 * level + 1)
  {
    assert Pow2(2 * level + 2) == 2 * Pow2(2 * level + 1) == 4 * Pow2(2 * level);
    if level > 0 {
      LevelSizeIsShift(level - 1);
    }
  }

  /** The largest multiple of m that is at most v. */
  function Mask(v: nat, m: nat): (r: nat)
    requires m > 0
    ensures r <= v < r + m
  {
    if v < m then 0 else m + Mask(v - m, m)
  }

  predicate Multiple(v: nat, m: nat)
    requires m > 0
  {
    Mask(v, m) == v
  }

  lemma {:induction false} ModUnique(v: nat, m: nat, q: nat, r: nat)
    requires m > 0 && r < m && v == q * m + r
    ensures v % m == r
  {
    var d := v / m - q;
    assert v == (v / m) * m + v % m;
    assert d * m == r - v % m;
    assert d >= 1 ==> d * m >= m;
    assert d <= -1 ==> d * m <= (-1) * m;
  }

  lemma {:induction false} ModShift(v: nat, m: nat)
    requires m > 0 && v >= m
    ensures v % m == (v - m) % m
  {
    var q, r := (v - m) / m, (v - m) % m;
    assert v - m == q * m + r;
    assert (q + 1) * m == q * m + m;
    ModUnique(v, m, q + 1, r);
  }

  /** For a power of two this is what clearing the low bits computes. */
  lemma {:induction false} MaskIsMod(v: nat, m: nat)
    requires m > 0
    ensures Mask(v, m) == v - v % m
  {
    if v < m {
    } else {
      MaskIsMod(v - m, m);
      ModShift(v, m);
    }
  }

  predicate LevelShouldSpill(n: nat, ledger: nat, level: nat) {
    && level != n - 1
    && (ledger == Mask(ledger, LevelHalf(level)) || ledger == Mask(ledger, LevelSize(level)))
  }

  predicate KeepDeadEntries(n: nat, level: nat) {
    level < n - 1
  }

  // ----- Multiples -----

  lemma {:induction false} MaskMultiple(v: nat, m: nat)
    requires m > 0
    ensures Multiple(Mask(v, m), m)
  {
    if v >= m {
      MaskMultiple(v - m, m);
    }
  }

  /** Masking steps by whole multiples. */
  lemma {:induction false} MaskStep(k: nat, m: nat)
    requires m > 0
    ensures Multiple(k + 1, m) ==> k + 1 >= m && Mask(k, m) == k + 1 - m
    ensures !Multiple(k + 1, m) ==> Mask(k + 1, m) == Mask(k, m)
  {
    if k >= m {
      MaskStep(k - m, m);
    }
  }

  lemma {:induction false} MaskDouble(k: nat, m: nat)
    requires m > 0
    ensures Mask(k, 2 * m) <= Mask(k, m)
    ensures Multiple(k, 2 * m) ==> Multiple(k, m)
  {
    if k >= 2 * m {
      MaskDouble(k - 2 * m, m);
    }
  }

  lemma {:induction false} MultipleOrder(a: nat, b: nat, m: nat)
    requires m > 0 && Multiple(a, m) && Multiple(b, m) && a < b
    ensures a + m <= b
  {
    if a >= m {
      MultipleOrder(a - m, b - m, m);
    }
  }

  lemma {:induction false} MaskBetween(k: nat, p: nat, m: nat)
    requires m > 0 && Mask(k, m) <= p <= k
    ensures Mask(p, m) == Mask(k, m)
  {
    if k >= m {
      MaskBetween(k - m, p - m, m);
    }
  }

  // ----- The ledgers each bucket holds -----

  /** How far the newest ledger of a snap lags behind the spill that formed it. */
  function SnapLag(level: nat): (lag: nat)
    ensures 0 < lag <= LevelHalf(level)
  {
    if level == 0 then 1
    else
      SnapLag(level - 1) + LevelSize(level - 1)
  }

  function SnapNewest(k: nat, level: nat): (r: nat)
    ensures r <= k
  {
    var c := Mask(k, LevelHalf(level));
    if c == 0 then 0 else c - SnapLag(level)
  }

  function SnapOldestLess1(k: nat, level: nat): (r: nat)
    ensures r <= SnapNewest(k, level)
  {
    var c := Mask(k, LevelHalf(level));
    if c < LevelSize(level) then 0 else c - LevelHalf(level) - SnapLag(level)
  }

  /** The newest ledger that curr(level), or anything older, holds after
      ledger k. Level n stands for the end of the list. */
  function CurrTop(n: nat, k: nat, level: nat): (r: nat)
    ensures r <= k
  {
    if level == 0 then k else if level >= n then 0 else SnapOldestLess1(k, level - 1)
  }

  /** The newest ledger that snap(level), or anything older, holds: curr(level)
      holds the ledgers in (SnapTop(level), CurrTop(level)] and snap(level) those
      in (CurrTop(level + 1), SnapTop(level)]. The last level has no snap. */
  function SnapTop(n: nat, k: nat, level: nat): (r: nat)
    ensures r <= k
  {
    if level >= n - 1 then 0 else SnapNewest(k, level)
  }

  lemma {:induction false} CoarserSpill(k: nat, level: nat)
    requires level > 0
    ensures Mask(k, LevelHalf(level)) <= Mask(k, LevelHalf(level - 1))
    ensures Multiple(k, LevelHalf(level)) ==> Multiple(k, LevelHalf(level - 1))
  {
    MaskDouble(k, LevelHalf(level - 1));
    MaskDouble(k, 2 * LevelHalf(level - 1));
  }

  lemma {:induction false} MaskZeroOrHalf(k: nat, level: nat)
    ensures Mask(k, LevelHalf(level)) == 0 || Mask(k, LevelHalf(level)) >= LevelHalf(level)
    ensures Mask(k, LevelHalf(level)) < LevelSize(level) ==> Mask(k, LevelHalf(level)) <= LevelHalf(level)
  {
    var h := LevelHalf(level);
    assert LevelSize(level) == 2 * h;
    assert k >= 2 * h ==> Mask(k, h) == 2 * h + Mask(k - 2 * h, h);
  }

  /** The ranges are ordered and contiguous: the tops never rise with age. */
  lemma {:induction false} TopsDescend(n: nat, k: nat, i: nat)
    requires i < n
    ensures CurrTop(n, k, i + 1) <= SnapTop(n, k, i) <= CurrTop(n, k, i)
  {
    if 0 < i < n - 1 {
      SnapBelowNeighbour(k, i);
    }
  }

  lemma {:induction false} SnapBelowNeighbour(k: nat, i: nat)
    requires i > 0
    ensures SnapNewest(k, i) <= SnapOldestLess1(k, i - 1)
  {
    CoarserSpill(k, i);
    MaskZeroOrHalf(k, i);
  }

  lemma {:induction false} TopsOrder(n: nat, k: nat, i: nat, j: nat)
    requires i <= j <= n
    ensures CurrTop(n, k, j) <= CurrTop(n, k, i)
    decreases j - i
  {
    if i < j {
      TopsOrder(n, k, i, j - 1);
      TopsDescend(n, k, j - 1);
    }
  }

  /** When closing ledger k + 1 spills level i, its curr becomes its snap. */
  lemma {:induction false} SpillTops(n: nat, k: nat, i: nat)
    requires i < n - 1 && Multiple(k + 1, LevelHalf(i))
    ensures SnapTop(n, k + 1, i) == CurrTop(n, k, i)
    ensures CurrTop(n, k + 1, i + 1) == SnapTop(n, k, i)
  {
    SnapAtSpill(k, i);
    if i > 0 {
      CurrAtSpill(k, i);
    }
  }

  lemma {:induction false} SnapAtSpill(k: nat, i: nat)
    requires Multiple(k + 1, LevelHalf(i))
    ensures SnapNewest(k + 1, i) == k + 1 - SnapLag(i)
    ensures SnapOldestLess1(k + 1, i) == SnapNewest(k, i)
  {
    MaskStep(k, LevelHalf(i));
    MaskZeroOrHalf(k + 1, i);
  }

  lemma {:induction false} CurrAtSpill(k: nat, i: nat)
    requires i > 0 && Multiple(k + 1, LevelHalf(i))
    ensures SnapOldestLess1(k, i - 1) == k + 1 - SnapLag(i)
  {
    CoarserSpill(k + 1, i);
    MaskStep(k, LevelHalf(i - 1));
    MaskStep(k, LevelHalf(i));
  }

  /** Otherwise its snap holds what it held. */
  lemma {:induction false} NoSpillTops(n: nat, k: nat, i: nat)
    requires i < n - 1 && !Multiple(k + 1, LevelHalf(i))
    ensures SnapTop(n, k + 1, i) == SnapTop(n, k, i)
    ensures CurrTop(n, k + 1, i + 1) == CurrTop(n, k, i + 1)
  {
    MaskStep(k, LevelHalf(i));
  }

  lemma {:induction false} SpillIsMultiple(n: nat, k: nat, i: nat)
    ensures LevelShouldSpill(n, k, i) <==> i != n - 1 && Multiple(k, LevelHalf(i))
  {
    MaskDouble(k, LevelHalf(i));
  }

  // ----- Every ledger is in exactly one bucket -----

  /** curr or snap of a level. */
  datatype Place = Place(level: nat, inCurr: bool)

  /** The ledgers a place holds after ledger k. */
  predicate Holds(n: nat, k: nat, p: Place, t: nat) {
    p.level < n &&
    if p.inCurr then SnapTop(n, k, p.level) < t <= CurrTop(n, k, p.level)
    else CurrTop(n, k, p.level + 1) < t <= SnapTop(n, k, p.level)
  }

  lemma {:induction false} EveryLedgerHeld(n: nat, k: nat, t: nat, from: nat) returns (p: Place)
    requires from < n && 0 < t <= CurrTop(n, k, from)
    ensures Holds(n, k, p, t)
    decreases n - from
  {
    if t > SnapTop(n, k, from) {
      p := Place(from, true);
    } else if t > CurrTop(n, k, from + 1) {
      p := Place(from, false);
    } else {
      p := EveryLedgerHeld(n, k, t, from + 1);
    }
  }

  lemma {:induction false} HeldBelow(n: nat, k: nat, p: Place, t: nat)
    requires Holds(n, k, p, t)
    ensures CurrTop(n, k, p.level + 1) < t <= CurrTop(n, k, p.level)
  {
    TopsDescend(n, k, p.level);
  }

  /** The places of ledgers 1 to k are disjoint and leave none out. */
  lemma {:induction false} HeldOnce(n: nat, k: nat, p: Place, q: Place, t: nat)
    requires Holds(n, k, p, t) && Holds(n, k, q, t)
    ensures p == q
  {
    HeldBelow(n, k, p, t);
    HeldBelow(n, k, q, t);
    if p.level < q.level {
      TopsOrder(n, k, p.level + 1, q.level);
    } else if q.level < p.level {
      TopsOrder(n, k, q.level + 1, p.level);
    }
  }

  lemma {:induction false} Partition(n: nat, k: nat, t: nat)
    requires n >= 1 && 1 <= t <= k
    ensures exists p :: Holds(n, k, p, t) && forall q :: Holds(n, k, q, t) ==> q == p
  {
    var p := EveryLedgerHeld(n, k, t, 0);
    forall q | Holds(n, k, q, t)
      ensures q == p
    {
      HeldOnce(n, k, p, q, t);
    }
  }
}
