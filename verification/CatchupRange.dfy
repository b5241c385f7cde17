/** Checkpoint arithmetic (src/history/HistoryManagerImpl.cpp) and the choice of
    what to replay in a catchup (makeCatchupRange in src/catchup/CatchupWork.cpp).
    The checkpoint frequency is any positive number. Every subtraction is on
    naturals, so none can wrap around. */
module CatchupRange {
  import opened LevelArithmetic

  const GENESIS_LEDGER_SEQ: nat := 1

  // ----- Checkpoints -----

  /** The program rounds with a division and a multiplication. */
  lemma {:induction false} MaskIsDivide(v: nat, m: nat)
    requires m > 0
    ensures Mask(v, m) == (v / m) * m
  {
    MaskIsMod(v, m);
    assert v == (v / m) * m + v % m;
  }

  function NextCheckpointLedger(ledger: nat, freq: nat): (r: nat)
    requires freq > 0
    ensures r > 0 && r >= ledger
  {
    if ledger == 0 then freq else Mask(ledger + freq - 1, freq)
  }

  /** The last ledger of the checkpoint that a ledger belongs to. */
  function CheckpointContainingLedger(ledger: nat, freq: nat): (r: nat)
    requires freq > 0
    ensures ledger <= r < ledger + freq
  {
    NextCheckpointLedger(ledger + 1, freq) - 1
  }

  /** The last ledgers of checkpoints are those before a multiple. */
  predicate IsCheckpoint(ledger: nat, freq: nat)
    requires freq > 0
  {
    Multiple(ledger + 1, freq)
  }

  lemma {:induction false} ContainingIsCheckpoint(ledger: nat, freq: nat)
    requires freq > 0
    ensures IsCheckpoint(CheckpointContainingLedger(ledger, freq), freq)
  {
    MaskMultiple(ledger + freq, freq);
  }

  lemma {:induction false} CheckpointsApart(a: nat, b: nat, freq: nat)
    requires freq > 0 && IsCheckpoint(a, freq) && IsCheckpoint(b, freq) && a < b
    ensures a + freq <= b
  {
    MultipleOrder(a + 1, b + 1, freq);
  }

  lemma {:induction false} CheckpointBefore(a: nat, freq: nat)
    requires freq > 0 && IsCheckpoint(a, freq) && a >= freq
    ensures IsCheckpoint(a - freq, freq)
  {
  }

  lemma {:induction false} FirstCheckpoint(a: nat, freq: nat)
    requires freq > 0 && IsCheckpoint(a, freq)
    ensures a >= freq - 1
  {
  }

  // ----- The range -----

  datatype Configuration = Configuration(toLedger: nat, count: nat)

  datatype Range = Range(first: nat, last: nat, applyBuckets: bool)

  function FirstNotFinishedCheckpoint(lcl: nat, freq: nat): (r: nat)
    requires freq > 0
    ensures r > lcl
  {
    var c := CheckpointContainingLedger(lcl, freq);
    if lcl < c then c else c + freq
  }

  function FirstNeededLedger(c: Configuration): (r: nat)
    ensures r >= GENESIS_LEDGER_SEQ
  {
    var neededCount := if c.count > 1 then c.count else 1;
    if c.toLedger > neededCount then c.toLedger - neededCount + 1 else GENESIS_LEDGER_SEQ
  }

  datatype Start = Start(applyBuckets: bool, ledger: nat)

  /** Were the subtraction to wrap around, it would not be a natural. */
  function ComputeCatchupStart(smallest: nat, smallestBucketApplyCheckpoint: nat, freq: nat): (r: Start)
    requires freq > 0
  {
    var c := CheckpointContainingLedger(smallest, freq);
    if smallest == c then Start(true, c)
    else if smallest < freq - 1 then Start(false, smallest)
    else
      ContainingIsCheckpoint(smallest, freq);
      SecondCheckpoint(smallest, freq);
      var earlier := c - freq;
      if earlier >= smallestBucketApplyCheckpoint then Start(true, earlier) else Start(false, smallest)
  }

  /** Beyond the first checkpoint there is one before. */
  lemma {:induction false} SecondCheckpoint(ledger: nat, freq: nat)
    requires freq > 0 && freq - 1 <= ledger < CheckpointContainingLedger(ledger, freq)
    ensures CheckpointContainingLedger(ledger, freq) >= freq + freq - 1
  {
    ContainingIsCheckpoint(ledger, freq);
    var c := CheckpointContainingLedger(ledger, freq);
    if freq - 1 < c {
      assert Multiple(freq, freq);
      CheckpointsApart(freq - 1, c, freq);
    }
  }

  function SmallestLedgerToApply(lcl: nat, c: Configuration): (r: nat) {
    var needed := FirstNeededLedger(c);
    if needed < lcl then lcl else needed
  }

  function MakeCatchupRange(lcl: nat, c: Configuration, freq: nat): (r: Range)
    requires freq > 0 && lcl > 0 && c.toLedger >= lcl
  {
    var start := ComputeCatchupStart(SmallestLedgerToApply(lcl, c), FirstNotFinishedCheckpoint(lcl, freq), freq);
    if start.applyBuckets && start.ledger <= lcl + 1 then Range(start.ledger, c.toLedger, false)
    else Range(start.ledger, c.toLedger, start.applyBuckets)
  }

  /** The first ledger in the file of a checkpoint; there is no ledger 0. */
  function FileStart(checkpoint: nat, freq: nat): (r: nat)
    requires freq > 0 && checkpoint + 1 >= freq
  {
    if checkpoint + 1 == freq then GENESIS_LEDGER_SEQ else checkpoint + 1 - freq
  }

  /** Each ledger is in the file of its checkpoint and in no other. */
  lemma {:induction false} FilesPartition(ledger: nat, checkpoint: nat, freq: nat)
    requires freq > 0 && ledger >= GENESIS_LEDGER_SEQ && IsCheckpoint(checkpoint, freq)
    ensures checkpoint + 1 >= freq
    ensures FileStart(checkpoint, freq) <= ledger <= checkpoint <==>
            checkpoint == CheckpointContainingLedger(ledger, freq)
  {
    var c := CheckpointContainingLedger(ledger, freq);
    FirstCheckpoint(checkpoint, freq);
    ContainingIsCheckpoint(ledger, freq);
    if checkpoint < c {
      CheckpointsApart(checkpoint, c, freq);
    } else if c < checkpoint {
      CheckpointsApart(c, checkpoint, freq);
    }
  }

  lemma {:induction false} NotFinishedIsCheckpoint(lcl: nat, freq: nat)
    requires freq > 0
    ensures IsCheckpoint(FirstNotFinishedCheckpoint(lcl, freq), freq)
    ensures FirstNotFinishedCheckpoint(lcl, freq) <= lcl + freq
  {
    ContainingIsCheckpoint(lcl, freq);
  }

  /** Nothing is left out between the last closed ledger and the range: with
      buckets the start is a checkpoint beyond the next ledger, without them
      the first file to replay begins at the next ledger or earlier. */
  lemma {:induction false} NoGap(lcl: nat, c: Configuration, freq: nat)
    requires freq > 0 && lcl > 0 && c.toLedger >= lcl
    ensures var r := MakeCatchupRange(lcl, c, freq);
            var file := CheckpointContainingLedger(r.first, freq);
            && (r.applyBuckets ==> IsCheckpoint(r.first, freq) && r.first > lcl + 1)
            && (!r.applyBuckets ==> file + 1 >= freq && FileStart(file, freq) <= lcl + 1)
  {
    var s := SmallestLedgerToApply(lcl, c);
    var cp, notDone := CheckpointContainingLedger(s, freq), FirstNotFinishedCheckpoint(lcl, freq);
    ContainingIsCheckpoint(s, freq);
    NotFinishedIsCheckpoint(lcl, freq);
    FirstCheckpoint(cp, freq);
    var r := MakeCatchupRange(lcl, c, freq);
    ContainingIsCheckpoint(r.first, freq);
    FirstCheckpoint(CheckpointContainingLedger(r.first, freq), freq);
    if s < freq - 1 {
      assert Mask(s, freq) == 0;
    } else if s != cp {
      SecondCheckpoint(s, freq);
      CheckpointBefore(cp, freq);
      if cp - freq < notDone {
        CheckpointsApart(cp - freq, notDone, freq);
      }
    }
  }

  /** The start reaches back far enough, and less than one checkpoint further. */
  lemma {:induction false} StartClose(lcl: nat, c: Configuration, freq: nat)
    requires freq > 0 && lcl > 0 && c.toLedger >= lcl
    ensures var r, s := MakeCatchupRange(lcl, c, freq), SmallestLedgerToApply(lcl, c);
            r.last == c.toLedger && r.first <= s < r.first + freq && r.first <= r.last
  {
    var s := SmallestLedgerToApply(lcl, c);
    if s < CheckpointContainingLedger(s, freq) && s >= freq - 1 {
      SecondCheckpoint(s, freq);
    }
  }

  /** The range holds the ledgers asked for, at least one, as far as the node does not
      have them yet, and less than one checkpoint more. */
  lemma {:induction false} RangeHoldsEnough(lcl: nat, c: Configuration, freq: nat)
    requires freq > 0 && lcl > 0 && c.toLedger >= lcl
    ensures var r := MakeCatchupRange(lcl, c, freq);
            var asked, missing, size := if c.count > 1 then c.count else 1, c.toLedger - lcl + 1, r.last - r.first + 1;
            var enough := if asked < missing then asked else missing;
            enough <= size < enough + freq
  {
    StartClose(lcl, c, freq);
  }

  /** The range never begins at ledger 0. */
  lemma {:induction false} StartPositive(lcl: nat, c: Configuration, freq: nat)
    requires freq > 0 && lcl > 0 && c.toLedger >= lcl
    ensures MakeCatchupRange(lcl, c, freq).first > 0
  {
    var s := SmallestLedgerToApply(lcl, c);
    if s < CheckpointContainingLedger(s, freq) && s >= freq - 1 {
      SecondCheckpoint(s, freq);
    }
  }
}
