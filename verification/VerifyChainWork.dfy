/** The code of VerifyLedgerChainWork (src/catchup/VerifyLedgerChainWork.cpp),
    proved to result in what VerifyChain's `Outcome` says, whatever the files. */
module VerifyChainWork {
  import opened BucketFile
  import opened CatchupRange
  import opened VerifyChain

  /** The task for a range of ledgers. */
  method MakeTask(sha: Header -> Hash, freq: nat, first: nat, last: nat, lastClosed: NumHash, trustedEnd: NumHash)
    returns (t: Task)
    requires freq > 0 && 0 < first <= last && last + freq <= UINT32_MAX && last == trustedEnd.number
             && lastClosed.hash.Some?
    ensures t.Valid() && t.firstCheckpoint == CheckpointContainingLedger(first, freq)
    ensures t.lastCheckpoint == CheckpointContainingLedger(last, freq) && t.Last() == last
    ensures t.sha == sha && t.freq == freq && t.lastClosed == lastClosed && t.trustedEnd == trustedEnd
  {
    ContainingIsCheckpoint(first, freq);
    ContainingIsCheckpoint(last, freq);
    ContainingOrder(first, last, freq);
    t := Task(sha, freq, CheckpointContainingLedger(first, freq), CheckpointContainingLedger(last, freq), lastClosed,
      trustedEnd);
  }

  lemma {:induction false} ContainingOrder(a: nat, b: nat, freq: nat)
    requires freq > 0 && a <= b
    ensures CheckpointContainingLedger(a, freq) <= CheckpointContainingLedger(b, freq)
  {
    var x, y := CheckpointContainingLedger(a, freq), CheckpointContainingLedger(b, freq);
    ContainingIsCheckpoint(a, freq);
    ContainingIsCheckpoint(b, freq);
    if y < x {
      CheckpointsApart(y, x, freq);
    }
  }

  class Work {
    const task: Task
    /** The downloaded file of each checkpoint. */
    const files: nat -> seq<Entry>
    var currCheckpoint: nat
    var verifiedAhead: NumHash
    /** Everything verified so far. */
    ghost var verified: seq<Entry>

    constructor (task: Task, files: nat -> seq<Entry>)
      requires task.Valid()
      ensures this.task == task && this.files == files
      ensures Valid() && Rest() == Outcome(task, files)
    {
      this.task, this.files := task, files;
      currCheckpoint, verifiedAhead, verified := task.lastCheckpoint, NumHash(0, None), [];
    }

    ghost predicate Valid()
      reads this
    {
      task.Valid() && IsCheckpoint(currCheckpoint, task.freq) && currCheckpoint >= task.firstCheckpoint
    }

    /** What the rest of the work will come to. */
    ghost function Rest(): (r: (Status, seq<Entry>))
      reads this
      requires Valid()
    {
      Backward(task, files, currCheckpoint, verifiedAhead, verified)
    }

    /** The reading loop. */
    method ReadFile(file: seq<Entry>) returns (status: Status, n: nat)
      requires task.Valid()
      ensures (status, n) == Read(task, file, 0)
    {
      n := 0;
      while n < |file|
        invariant n <= |file| && Read(task, file, 0) == Read(task, file, n)
      {
        var curr := file[n];
        if curr.header.body.ledgerVersion > CURRENT_LEDGER_PROTOCOL_VERSION {
          return BAD_LEDGER_VERSION, n;
        }
        var lclResult := VerifyLCL(task.sha, task.lastClosed, curr);
        if lclResult != OK {
          return lclResult, n;
        }
        if n == 0 {
          var hashResult := VerifyEntry(task.sha, curr);
          if hashResult != OK {
            return hashResult, n;
          }
        } else {
          var prev := file[n - 1];
          var expectedSeq := prev.header.ledgerSeq + 1;
          if curr.header.ledgerSeq < expectedSeq {
            return UNDERSHOT, n;
          } else if curr.header.ledgerSeq > expectedSeq {
            return OVERSHOT, n;
          }
          var linkResult := VerifyLink(task.sha, prev.hash, curr);
          if linkResult != OK {
            return linkResult, n;
          }
        }
        n := n + 1;
        if curr.header.ledgerSeq == task.Last() {
          return OK, n;
        }
      }
      return OK, n;
    }

    /** verifyHistoryOfSingleCheckpoint. */
    method VerifySingle() returns (status: Status)
      requires Valid()
      modifies this`verifiedAhead, this`verified
      ensures var file, v := files(currCheckpoint),
              VerifyFile(task, currCheckpoint, files(currCheckpoint), old(verifiedAhead));
              && status == v.0
              && (status == OK ==>
                verifiedAhead == Before(file[0]) && verified == Extended(task, file, v.1, old(verified)))
              && (status != OK ==> verified == old(verified))
    {
      var file := files(currCheckpoint);
      var nextCheckpointFirstLedger := verifiedAhead;
      var n;
      status, n := ReadFile(file);
      if status != OK {
        return;
      }
      if n == 0 {
        return MISSING_ENTRIES;
      }
      verifiedAhead := Before(file[0]);
      var curr := file[n - 1];
      if curr.header.ledgerSeq != currCheckpoint && curr.header.ledgerSeq != task.Last() {
        return MISSING_ENTRIES;
      }
      if curr.header.ledgerSeq == task.Last() {
        if nextCheckpointFirstLedger.number != 0 {
          return ABORT;
        }
        nextCheckpointFirstLedger := task.trustedEnd;
      } else {
        if nextCheckpointFirstLedger.hash.None? || nextCheckpointFirstLedger.number == 0 {
          return ABORT;
        }
      }
      status := VerifyLast(curr, nextCheckpointFirstLedger);
      if status == OK {
        verified := Extended(task, file, n, verified);
      }
    }

    /** One step: done when the file of the first checkpoint has passed. */
    method OnSuccess() returns (status: Status, done: bool)
      requires Valid()
      modifies this
      ensures status != OK ==> !done && old(Rest()) == (status, verified)
      ensures status == OK && done ==> old(Rest()) == (OK, verified)
      ensures status == OK && !done ==> Valid() && currCheckpoint < old(currCheckpoint) && Rest() == old(Rest())
    {
      done := false;
      status := VerifySingle();
      if status == OK {
        if currCheckpoint == task.firstCheckpoint {
          return OK, true;
        }
        StepBack(task.firstCheckpoint, currCheckpoint, task.freq);
        currCheckpoint := currCheckpoint - task.freq;
      }
    }

    /** The whole work. */
    method Run() returns (status: Status)
      requires Valid()
      modifies this
      ensures (status, verified) == old(Rest())
    {
      var done := false;
      status := OK;
      ghost var rest := Rest();
      while status == OK && !done
        invariant status == OK && !done ==> Valid() && Rest() == rest
        invariant status != OK || done ==> rest == (status, verified)
        decreases status == OK && !done, currCheckpoint
      {
        status, done := OnSuccess();
      }
    }
  }

  /** Verifying files for a task: success means one linked chain up to the
      trusted end, and the files themselves if they are tidy. */
  method Verify(task: Task, files: nat -> seq<Entry>) returns (status: Status, ghost es: seq<Entry>)
    requires task.Valid()
    ensures status == Outcome(task, files).0
    ensures es == Outcome(task, files).1
    ensures status == OK <==> PassFrom(task, files, task.firstCheckpoint)
    ensures status == OK ==>
            Good(task, es) && files(task.firstCheckpoint) != [] && es[0] == files(task.firstCheckpoint)[0]
    ensures var joined := Joined(files, task.freq, task.Last(), task.firstCheckpoint, task.lastCheckpoint);
            status == OK ==>
              && (Linked(joined) ==> joined == es)
              && (Linked(joined) <==> Tidy(files, task.freq, task.Last(), task.firstCheckpoint, task.lastCheckpoint))
  {
    var work := new Work(task, files);
    status := work.Run();
    es := work.verified;
    SuccessIff(task, files);
    if status == OK {
      SuccessIsChain(task, files);
      SuccessIsFilesIffTidy(task, files);
    }
  }
}
