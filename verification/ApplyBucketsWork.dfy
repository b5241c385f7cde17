/** The callbacks of ApplyBucketsWork (src/catchup/ApplyBucketsWork.cpp), and
    the run of them that the work framework performs. */
module ApplyBucketsWork {
  import opened BucketFile
  import LevelSizes
  import T = TxnStack
  import opened LedgerTxn
  import R = BucketListRuns
  import opened BucketApplicator
  import opened ApplyBuckets

  datatype Files = Files(snap: seq<Entry>, curr: seq<Entry>)

  datatype State = WORK_RUNNING | WORK_PENDING | WORK_SUCCESS

  /** The files hold the target's buckets. */
  ghost predicate FilesHold(files: seq<Files>, target: seq<Level>) {
    && |files| == |target|
    && forall i :: 0 <= i < |files| ==>
         && Contents(files[i].snap) == target[i].snap && Contents(files[i].curr) == target[i].curr
         && Keyed(files[i].snap) && Keyed(files[i].curr)
  }

  /** What the store will be once everything started is finished and the levels
      below `level` are applied. */
  ghost function Outcome(store: T.Entries, snapRest: seq<Entry>, currRest: seq<Entry>, target: seq<Level>,
                         level: nat): (m: T.Entries)
    requires level <= |target|
  {
    ApplyDown(ApplyFile(ApplyFile(store, snapRest), currRest), target, level)
  }

  class Work {
    const task: Task
    const files: seq<Files>
    /** What the whole walk makes of the store. */
    ghost const goal: T.Entries
    var level: nat
    var applying: bool
    var snapApplicator: Applicator?
    var currApplicator: Applicator?

    constructor (task: Task, files: seq<Files>, l: LedgerTxns)
      requires l.Valid() && l.txns == []
      requires |task.target| == |task.local| >= 2 && task.ledger > 0 && FilesHold(files, task.target)
      ensures this.task == task && this.files == files && goal == Walk(task, l.store, |task.target|)
      ensures Pending(l)
    {
      this.task, this.files, goal := task, files, Walk(task, l.store, |task.target|);
      level, applying := |task.target| - 1, false;
      snapApplicator, currApplicator := null, null;
    }

    ghost predicate Valid(l: LedgerTxns)
      reads this, l, snapApplicator, currApplicator
    {
      && |task.target| == |task.local| >= 2 && task.ledger > 0 && FilesHold(files, task.target) && level < |task.target|
      && l.Valid() && l.txns == []
      && (snapApplicator != null ==>
        snapApplicator.pos <= |snapApplicator.file| && Keyed(snapApplicator.file) && snapApplicator != currApplicator)
      && (currApplicator != null ==> currApplicator.pos <= |currApplicator.file| && Keyed(currApplicator.file))
    }

    ghost function SnapRest(): (f: seq<Entry>)
      reads this, snapApplicator
      requires snapApplicator != null ==> snapApplicator.pos <= |snapApplicator.file|
    {
      if snapApplicator == null then [] else snapApplicator.file[snapApplicator.pos..]
    }

    ghost function CurrRest(): (f: seq<Entry>)
      reads this, currApplicator
      requires currApplicator != null ==> currApplicator.pos <= |currApplicator.file|
    {
      if currApplicator == null then [] else currApplicator.file[currApplicator.pos..]
    }

    /** Level `level` is about to start. */
    ghost predicate Pending(l: LedgerTxns)
      reads this, l, snapApplicator, currApplicator
    {
      && Valid(l) && snapApplicator == null && currApplicator == null
      && goal == if applying then ApplyDown(l.store, task.target, level + 1) else Walk(task, l.store, level + 1)
    }

    /** Level `level` is under way, and the outcome is decided. */
    ghost predicate Started(l: LedgerTxns)
      reads this, l, snapApplicator, currApplicator
    {
      && Valid(l)
      && (applying ==> goal == Outcome(l.store, SnapRest(), CurrRest(), task.target, level))
      && (!applying ==> snapApplicator == null && currApplicator == null && goal == Walk(task, l.store, level))
    }

    /** The store is what the whole walk makes of it. */
    ghost predicate Done(l: LedgerTxns)
      reads l
    {
      l.Valid() && l.txns == [] && l.store == goal
    }

    /** What is deleted first: everything from the oldest ledger of the first
        bucket that is to be applied. */
    method DeleteFrom(l: LedgerTxns, snap: bool)
      requires Valid(l)
      modifies l
      ensures l.Valid() && l.txns == [] && l.header == old(l.header)
      ensures l.store == Older(old(l.store), if snap then OldestInSnap(task, level) else OldestInCurr(task, level))
    {
      var oldest;
      if snap {
        oldest := LevelSizes.OldestLedgerInSnap(|task.target|, task.ledger, level);
      } else {
        oldest := LevelSizes.OldestLedgerInCurr(|task.target|, task.ledger, level);
      }
      var r := l.DeleteModifiedOnOrAfter(oldest);
    }

    /** A level is started: skipped if nothing was applied yet and neither bucket
        differs, otherwise applied. */
    method OnStart(l: LedgerTxns)
      requires Pending(l)
      modifies this, l
      ensures Started(l) && level == old(level)
      ensures snapApplicator != null ==> fresh(snapApplicator)
      ensures currApplicator != null ==> fresh(currApplicator)
    {
      var applySnap, applyCurr := task.SnapDiffers(level), task.CurrDiffers(level);
      if !applying && !applySnap && !applyCurr {
        return;
      }
      if applying {
        ApplyLevel(l.store, task.target, files, level);
        StartBoth();
      } else if applySnap {
        DeleteFrom(l, true);
        ApplyLevel(l.store, task.target, files, level);
        StartBoth();
      } else {
        DeleteFrom(l, false);
        ApplyFileIsBatch(l.store, files[level].curr);
        currApplicator := new Applicator(files[level].curr);
        applying := true;
        assert currApplicator.file[currApplicator.pos..] == files[level].curr;
      }
    }

    method StartBoth()
      requires level < |files|
      modifies this
      ensures level == old(level) && applying
      ensures snapApplicator != null && fresh(snapApplicator) && snapApplicator.file == files[level].snap
              && snapApplicator.pos == 0
      ensures currApplicator != null && fresh(currApplicator) && currApplicator.file == files[level].curr
              && currApplicator.pos == 0
      ensures snapApplicator != currApplicator
    {
      snapApplicator := new Applicator(files[level].snap);
      applying := true;
      currApplicator := new Applicator(files[level].curr);
    }

    /** Snap is finished before curr is touched. */
    method OnRun(l: LedgerTxns)
      requires Started(l)
      modifies l, snapApplicator, currApplicator
      ensures Started(l)
      ensures snapApplicator != null ==>
              |SnapRest()| <= |old(SnapRest())| && (old(SnapRest()) != [] ==> |SnapRest()| < |old(SnapRest())|)
      ensures currApplicator != null ==> |CurrRest()| <= |old(CurrRest())|
      ensures snapApplicator == null && currApplicator != null && old(CurrRest()) != [] ==>
              |CurrRest()| < |old(CurrRest())|
    {
      if snapApplicator != null {
        if snapApplicator.More() {
          var count := snapApplicator.Advance(l);
        }
      } else if currApplicator != null {
        if currApplicator.More() {
          var count := currApplicator.Advance(l);
        }
      }
    }

    method OnSuccess(l: LedgerTxns) returns (state: State)
      requires Started(l)
      modifies this
      ensures state == WORK_RUNNING ==> Started(l) && level == old(level) && currApplicator == old(currApplicator)
      ensures state == WORK_RUNNING ==>
                || (snapApplicator == old(snapApplicator) && snapApplicator != null && SnapRest() != [])
                || (snapApplicator == null && currApplicator != null && CurrRest() != [])
      ensures state == WORK_PENDING ==> Pending(l) && level < old(level)
      ensures state == WORK_SUCCESS ==> Done(l)
    {
      if snapApplicator != null {
        if snapApplicator.More() {
          return WORK_RUNNING;
        }
        assert SnapRest() == [];
        snapApplicator := null;
      }
      if currApplicator != null {
        if currApplicator.More() {
          return WORK_RUNNING;
        }
        assert CurrRest() == [];
        currApplicator := null;
      }
      state := NextLevel(l);
    }

    /** This level is finished. */
    method NextLevel(l: LedgerTxns) returns (state: State)
      requires Started(l) && snapApplicator == null && currApplicator == null
      modifies this
      ensures state != WORK_RUNNING
      ensures state == WORK_PENDING ==> Pending(l) && level < old(level)
      ensures state == WORK_SUCCESS ==> Done(l)
    {
      if level != 0 {
        level := level - 1;
        return WORK_PENDING;
      }
      return WORK_SUCCESS;
    }

    /** All callbacks until the last level is done: the store ends as the whole
        walk says, and the run does end. */
    method Run(l: LedgerTxns)
      requires Pending(l)
      modifies this, l
      ensures Done(l)
    {
      while true
        invariant Pending(l)
        decreases level
      {
        OnStart(l);
        var state := RunLevel(l);
        if state == WORK_SUCCESS {
          return;
        }
      }
    }

    method RunLevel(l: LedgerTxns) returns (state: State)
      requires Started(l)
      modifies this, l, snapApplicator, currApplicator
      ensures state != WORK_RUNNING
      ensures state == WORK_PENDING ==> Pending(l) && level < old(level)
      ensures state == WORK_SUCCESS ==> Done(l)
    {
      state := WORK_RUNNING;
      while state == WORK_RUNNING
        invariant state == WORK_RUNNING ==> Started(l) && level == old(level)
        invariant state == WORK_RUNNING ==> snapApplicator == old(snapApplicator) || snapApplicator == null
        invariant state == WORK_RUNNING ==> currApplicator == old(currApplicator)
        invariant state == WORK_PENDING ==> Pending(l) && level < old(level)
        invariant state == WORK_SUCCESS ==> Done(l)
        decreases state == WORK_RUNNING,
          if state == WORK_RUNNING && snapApplicator != null then 1 else 0,
          if state == WORK_RUNNING then |SnapRest()| + |CurrRest()| else 0
      {
        OnRun(l);
        state := OnSuccess(l);
      }
    }
  }

  /** Applying the target's buckets to a node at ledger c of the same history: the
      store becomes the target's state if the node has all ledgers of the skipped
      buckets, and exactly if every leftover is mentioned by an applied bucket. */
  method ApplyAll(l: LedgerTxns, task: Task, files: seq<Files>, ghost hist: seq<Batch>, ghost c: nat)
    requires Fits(task, hist, c) && FilesHold(files, task.target)
    requires l.Valid() && l.txns == [] && l.store == R.ApplyAll(hist[..c])
    modifies l
    ensures l.Valid() && l.txns == [] && l.store == Walk(task, old(l.store), |task.target|)
    ensures SkippedUpTo(task, |task.target|) <= c ==> l.store == R.FlatView(task.target)
    ensures HashTells(task) ==> (l.store == R.FlatView(task.target) <==> LeftoversMentioned(task, old(l.store)))
  {
    if SkippedUpTo(task, |task.target|) <= c {
      WalkGivesTarget(task, hist, c);
    }
    if HashTells(task) {
      WalkRightIff(task, hist, c);
    }
    var work := new Work(task, files, l);
    work.Run(l);
  }

  lemma {:induction false} ApplyLevel(m: T.Entries, target: seq<Level>, files: seq<Files>, level: nat)
    requires FilesHold(files, target) && level < |target|
    ensures Outcome(m, files[level].snap, files[level].curr, target, level) == ApplyDown(m, target, level + 1)
  {
    ApplyFileIsBatch(m, files[level].snap);
    ApplyFileIsBatch(ApplyFile(m, files[level].snap), files[level].curr);
  }
}
