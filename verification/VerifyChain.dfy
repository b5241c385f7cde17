/** Backward verification of the header chain, checkpoint by checkpoint
    (src/catchup/VerifyLedgerChainWork.cpp). The hash of a header is a
    parameter. A failed assert of the program is an abort, not a success.
    `Outcome` says what verifying given files results in; VerifyChainWork has the
    program, proved to do that. */
module VerifyChain {
  import opened BucketFile
  import opened LevelArithmetic
  import opened CatchupRange

  type Hash = nat

  /** What a header holds besides its place in the chain. */
  datatype Body = Body(ledgerVersion: nat, rest: nat)

  datatype Header = Header(ledgerSeq: nat, previousLedgerHash: Hash, body: Body)

  datatype Entry = Entry(header: Header, hash: Hash)

  datatype Status = OK | BAD_HASH | BAD_LEDGER_VERSION | OVERSHOT | UNDERSHOT | MISSING_ENTRIES | ABORT

  const CURRENT_LEDGER_PROTOCOL_VERSION: nat := 10

  const UINT32_MAX: nat := 0xFFFF_FFFF

  /** A ledger number with its hash, if that is known. */
  datatype NumHash = NumHash(number: nat, hash: Option<Hash>)

  // ----- What a verified chain is -----

  predicate HashesRight(sha: Header -> Hash, es: seq<Entry>) {
    forall i :: 0 <= i < |es| ==> es[i].hash == sha(es[i].header)
  }

  /** Consecutive numbers, each naming the hash of the one before. */
  ghost predicate Linked(es: seq<Entry>) {
    forall i, j :: 0 <= i < j < |es| && j == i + 1 ==> Link(es[i], es[j])
  }

  predicate Link(a: Entry, b: Entry) {
    b.header.ledgerSeq == a.header.ledgerSeq + 1 && b.header.previousLedgerHash == a.hash
  }

  predicate AgreesWithLCL(sha: Header -> Hash, lcl: NumHash, e: Entry)
    requires lcl.hash.Some?
  {
    && (e.header.ledgerSeq == lcl.number ==> sha(e.header) == lcl.hash.value)
    && (e.header.ledgerSeq == lcl.number + 1 ==> e.header.previousLedgerHash == lcl.hash.value)
  }

  ghost predicate Chain(sha: Header -> Hash, lcl: NumHash, es: seq<Entry>)
    requires lcl.hash.Some?
  {
    && HashesRight(sha, es) && Linked(es)
    && (forall i :: 0 <= i < |es| ==>
      AgreesWithLCL(sha, lcl, es[i]) && es[i].header.body.ledgerVersion <= CURRENT_LEDGER_PROTOCOL_VERSION)
  }

  /** The chain ends at a ledger with, if given, a trusted hash. */
  predicate EndsAt(es: seq<Entry>, end: NumHash) {
    && es != [] && es[|es| - 1].header.ledgerSeq == end.number
    && (end.hash.Some? ==> es[|es| - 1].hash == end.hash.value)
  }

  // ----- At most one chain passes -----

  ghost predicate Injective(sha: Header -> Hash) {
    forall a, b :: sha(a) == sha(b) ==> a == b
  }

  /** Two chains that end in the same trusted hash agree as far back as both go. */
  lemma {:induction false} ChainsAgree(sha: Header -> Hash, a: seq<Entry>, b: seq<Entry>, end: NumHash, d: nat)
    requires Injective(sha) && end.hash.Some?
    requires HashesRight(sha, a) && Linked(a) && EndsAt(a, end)
    requires HashesRight(sha, b) && Linked(b) && EndsAt(b, end)
    requires d < |a| && d < |b|
    ensures a[|a| - 1 - d] == b[|b| - 1 - d]
  {
    if d > 0 {
      ChainsAgree(sha, a, b, end, d - 1);
      var i, j := |a| - d, |b| - d;
      assert a[i] == b[j] && Link(a[i - 1], a[i]) && Link(b[j - 1], b[j]);
    }
  }

  /** In particular chains with the same first ledger are equal. */
  lemma {:induction false} ChainUnique(sha: Header -> Hash, a: seq<Entry>, b: seq<Entry>, end: NumHash)
    requires Injective(sha) && end.hash.Some?
    requires HashesRight(sha, a) && Linked(a) && EndsAt(a, end)
    requires HashesRight(sha, b) && Linked(b) && EndsAt(b, end)
    requires a[0].header.ledgerSeq == b[0].header.ledgerSeq
    ensures a == b
  {
    Numbered(a, |a| - 1);
    Numbered(b, |b| - 1);
    forall i | 0 <= i < |a|
      ensures a[i] == b[i]
    {
      ChainsAgree(sha, a, b, end, |a| - 1 - i);
    }
  }

  lemma {:induction false} Numbered(es: seq<Entry>, i: nat)
    requires Linked(es) && i < |es|
    ensures es[i].header.ledgerSeq == es[0].header.ledgerSeq + i
  {
    if i > 0 {
      Numbered(es, i - 1);
      assert Link(es[i - 1], es[i]);
    }
  }

  // ----- What verifying does -----

  /** The task: a range of ledgers by its checkpoints, the last closed ledger, and
      the end of the range with its trusted hash. */
  datatype Task = Task(sha: Header -> Hash, freq: nat, firstCheckpoint: nat, lastCheckpoint: nat,
                       lastClosed: NumHash, trustedEnd: NumHash)
  {
    /** The end of the range. */
    function Last(): (n: nat) { trustedEnd.number }

    /** Ledger numbers are 32 bits wide: the last checkpoint's number must fit. */
    predicate Valid() {
      && freq > 0 && lastClosed.hash.Some?
      && 0 < firstCheckpoint <= lastCheckpoint < UINT32_MAX
      && IsCheckpoint(firstCheckpoint, freq) && IsCheckpoint(lastCheckpoint, freq)
    }
  }

  function VerifyEntry(sha: Header -> Hash, e: Entry): (s: Status) {
    if sha(e.header) != e.hash then BAD_HASH else OK
  }

  function VerifyLink(sha: Header -> Hash, prev: Hash, e: Entry): (s: Status) {
    if VerifyEntry(sha, e) != OK then VerifyEntry(sha, e)
    else if prev != e.header.previousLedgerHash then BAD_HASH
    else OK
  }

  function VerifyLast(e: Entry, ahead: NumHash): (s: Status) {
    if e.header.ledgerSeq != ahead.number then ABORT
    else if ahead.hash.Some? && e.hash != ahead.hash.value then BAD_HASH
    else OK
  }

  function VerifyLCL(sha: Header -> Hash, lcl: NumHash, e: Entry): (s: Status)
    requires lcl.hash.Some?
    ensures s == OK ==> AgreesWithLCL(sha, lcl, e)
  {
    if e.header.ledgerSeq == lcl.number then (if sha(e.header) != lcl.hash.value then BAD_HASH else OK)
    else if e.header.ledgerSeq == lcl.number + 1 then VerifyLink(sha, lcl.hash.value, e)
    else OK
  }

  /** The checks on entry i of a file. */
  function CheckEntry(t: Task, file: seq<Entry>, i: nat): (s: Status)
    requires t.lastClosed.hash.Some? && i < |file|
  {
    var e := file[i];
    if e.header.body.ledgerVersion > CURRENT_LEDGER_PROTOCOL_VERSION then BAD_LEDGER_VERSION
    else if VerifyLCL(t.sha, t.lastClosed, e) != OK then VerifyLCL(t.sha, t.lastClosed, e)
    else if i == 0 then VerifyEntry(t.sha, e)
    else if e.header.ledgerSeq < file[i - 1].header.ledgerSeq + 1 then UNDERSHOT
    else if e.header.ledgerSeq > file[i - 1].header.ledgerSeq + 1 then OVERSHOT
    else VerifyLink(t.sha, file[i - 1].hash, e)
  }

  /** Reading on from entry i: the first bad status, or where reading ends. */
  function Read(t: Task, file: seq<Entry>, i: nat): (r: (Status, nat))
    requires t.lastClosed.hash.Some? && i <= |file|
    ensures i <= r.1 <= |file|
    decreases |file| - i
  {
    if i == |file| then (OK, i)
    else if CheckEntry(t, file, i) != OK then (CheckEntry(t, file, i), i)
    else if file[i].header.ledgerSeq == t.Last() then (OK, i + 1)
    else Read(t, file, i + 1)
  }

  function Previous(ledgerSeq: nat): (r: nat) {
    if ledgerSeq == 0 then UINT32_MAX else ledgerSeq - 1
  }

  /** What the file before must end with. */
  function Before(e: Entry): (r: NumHash) {
    NumHash(Previous(e.header.ledgerSeq), Some(e.header.previousLedgerHash))
  }

  /** One checkpoint's file, given what must follow it. */
  function VerifyFile(t: Task, checkpoint: nat, file: seq<Entry>, ahead: NumHash): (r: (Status, nat))
    requires t.lastClosed.hash.Some?
    ensures r.1 <= |file| && (r.0 == OK ==> r.1 > 0)
  {
    var (s, n) := Read(t, file, 0);
    if s != OK then (s, n)
    else if n == 0 then (MISSING_ENTRIES, n)
    else
      var curr := file[n - 1];
      if curr.header.ledgerSeq != checkpoint && curr.header.ledgerSeq != t.Last() then (MISSING_ENTRIES, n)
      else if curr.header.ledgerSeq == t.Last() then
        if ahead.number != 0 then (ABORT, n) else (VerifyLast(curr, t.trustedEnd), n)
      else if ahead.hash.None? || ahead.number == 0 then (ABORT, n)
      else (VerifyLast(curr, ahead), n)
  }

  /** What has been verified after a file: a file that holds the end of the range
      stands alone, any other goes before the rest. */
  function Extended(t: Task, file: seq<Entry>, n: nat, rest: seq<Entry>): (es: seq<Entry>)
    requires 0 < n <= |file|
  {
    if file[n - 1].header.ledgerSeq == t.Last() then file[..n] else file[..n] + rest
  }

  /** From a checkpoint back to the first one. */
  function Backward(t: Task, files: nat -> seq<Entry>, checkpoint: nat, ahead: NumHash,
                    rest: seq<Entry>): (r: (Status, seq<Entry>))
    requires t.Valid() && IsCheckpoint(checkpoint, t.freq) && checkpoint >= t.firstCheckpoint
    decreases checkpoint
  {
    var file := files(checkpoint);
    var (s, n) := VerifyFile(t, checkpoint, file, ahead);
    if s != OK then (s, rest)
    else
      var es := Extended(t, file, n, rest);
      if checkpoint == t.firstCheckpoint then (OK, es)
      else
        StepBack(t.firstCheckpoint, checkpoint, t.freq);
        Backward(t, files, checkpoint - t.freq, Before(file[0]), es)
  }

  function Outcome(t: Task, files: nat -> seq<Entry>): (r: (Status, seq<Entry>))
    requires t.Valid()
  {
    Backward(t, files, t.lastCheckpoint, NumHash(0, None), [])
  }

  lemma {:induction false} StepBack(first: nat, current: nat, freq: nat)
    requires freq > 0 && IsCheckpoint(current, freq) && IsCheckpoint(first, freq) && first < current
    ensures freq <= current && IsCheckpoint(current - freq, freq) && first <= current - freq
  {
    CheckpointsApart(first, current, freq);
    CheckpointBefore(current, freq);
  }

  // ----- What success means -----

  lemma {:induction false} ReadGives(t: Task, file: seq<Entry>, i: nat)
    requires t.lastClosed.hash.Some? && i <= |file| && Chain(t.sha, t.lastClosed, file[..i])
    requires Read(t, file, i).0 == OK
    ensures Chain(t.sha, t.lastClosed, file[..Read(t, file, i).1])
    decreases |file| - i
  {
    if i < |file| {
      ChainMore(t.sha, t.lastClosed, file, i);
      if file[i].header.ledgerSeq != t.Last() {
        ReadGives(t, file, i + 1);
      }
    }
  }

  /** How much of a file is read: up to the end of the range, if it is there. */
  function Reach(file: seq<Entry>, last: nat): (n: nat)
    ensures n <= |file|
  {
    if file == [] then 0
    else if file[0].header.ledgerSeq == last then 1
    else 1 + Reach(file[1..], last)
  }

  lemma {:induction false} ReadReaches(t: Task, file: seq<Entry>, i: nat)
    requires t.lastClosed.hash.Some? && i <= |file| && Read(t, file, i).0 == OK
    ensures Read(t, file, i).1 == i + Reach(file[i..], t.Last())
    decreases |file| - i
  {
    if i < |file| && file[i].header.ledgerSeq != t.Last() {
      ReadReaches(t, file, i + 1);
      assert file[i..][1..] == file[i + 1..];
    }
  }

  /** A chain up to the trusted end. */
  ghost predicate Good(t: Task, es: seq<Entry>)
    requires t.lastClosed.hash.Some?
  {
    Chain(t.sha, t.lastClosed, es) && EndsAt(es, t.trustedEnd)
  }

  lemma {:induction false} FileGives(t: Task, checkpoint: nat, file: seq<Entry>, ahead: NumHash, rest: seq<Entry>)
    requires t.Valid() && checkpoint < UINT32_MAX
    requires rest == [] ==> ahead == NumHash(0, None)
    requires rest != [] ==> Good(t, rest) && ahead == Before(rest[0])
    requires VerifyFile(t, checkpoint, file, ahead).0 == OK
    ensures var n := VerifyFile(t, checkpoint, file, ahead).1;
            Good(t, Extended(t, file, n, rest)) && Extended(t, file, n, rest)[0] == file[0]
  {
    var n := VerifyFile(t, checkpoint, file, ahead).1;
    assert file[..0] == [];
    ReadGives(t, file, 0);
    if file[n - 1].header.ledgerSeq != t.Last() {
      ChainJoin(t.sha, t.lastClosed, file[..n], rest);
    }
  }

  // ----- Is it what the files hold? -----

  /** The files joined, each as far as it is read. */
  function Joined(files: nat -> seq<Entry>, freq: nat, last: nat, from: nat, end: nat): (es: seq<Entry>)
    requires freq > 0
    decreases if from > end then 0 else end - from + 1
  {
    if from > end then [] else files(from)[..Reach(files(from), last)] + Joined(files, freq, last, from + freq, end)
  }

  /** A file that holds the last ledger of the range. */
  predicate ReachesEnd(file: seq<Entry>, last: nat) {
    var n := Reach(file, last);
    n > 0 && file[n - 1].header.ledgerSeq == last
  }

  /** No file but the last holds the last ledger of the range. */
  predicate Tidy(files: nat -> seq<Entry>, freq: nat, last: nat, from: nat, end: nat)
    requires freq > 0
    decreases if from > end then 0 else end - from + 1
  {
    from >= end || (!ReachesEnd(files(from), last) && Tidy(files, freq, last, from + freq, end))
  }

  /** What the joined files are: the verified chain if tidy, else no chain. */
  ghost predicate FilesGive(files: nat -> seq<Entry>, freq: nat, last: nat, from: nat, end: nat, es: seq<Entry>)
    requires freq > 0
  {
    var joined := Joined(files, freq, last, from, end);
    if Tidy(files, freq, last, from, end) then es == joined else !Linked(joined)
  }

  lemma {:induction false} LastFileGives(files: nat -> seq<Entry>, freq: nat, last: nat, end: nat)
    requires freq > 0
    ensures FilesGive(files, freq, last, end, end, files(end)[..Reach(files(end), last)])
  {
    var part := files(end)[..Reach(files(end), last)];
    assert part + [] == part;
  }

  /** An earlier file that reaches the end of the range does not fit in front of
      the others. */
  lemma {:induction false} EndFileSpoils(files: nat -> seq<Entry>, freq: nat, last: nat, from: nat, end: nat,
                                         es: seq<Entry>, trusted: NumHash)
    requires freq > 0 && from < end && ReachesEnd(files(from), last)
             && FilesGive(files, freq, last, from + freq, end, es)
    requires Linked(es) && EndsAt(es, trusted) && trusted.number == last
    ensures FilesGive(files, freq, last, from, end, files(from)[..Reach(files(from), last)])
  {
    var part, rest := files(from)[..Reach(files(from), last)], Joined(files, freq, last, from + freq, end);
    if Linked(rest) {
      Numbered(rest, |rest| - 1);
      NotLinked(part, rest);
    } else {
      SuffixNotLinked(part, rest);
    }
  }

  lemma {:induction false} FileBeforeGives(files: nat -> seq<Entry>, freq: nat, last: nat, from: nat, end: nat,
                                           es: seq<Entry>)
    requires freq > 0 && from < end && !ReachesEnd(files(from), last)
             && FilesGive(files, freq, last, from + freq, end, es)
    ensures FilesGive(files, freq, last, from, end, files(from)[..Reach(files(from), last)] + es)
  {
    var part, rest := files(from)[..Reach(files(from), last)], Joined(files, freq, last, from + freq, end);
    if !Linked(rest) {
      SuffixNotLinked(part, rest);
    }
  }

  /** One more file, in front of what the later ones were found to be. */
  lemma {:induction false} FilesGiveMore(t: Task, files: nat -> seq<Entry>, checkpoint: nat, ahead: NumHash,
                                         rest: seq<Entry>)
    requires t.Valid() && t.firstCheckpoint <= checkpoint <= t.lastCheckpoint
    requires checkpoint == t.lastCheckpoint ==> rest == [] && ahead == NumHash(0, None)
    requires checkpoint < t.lastCheckpoint ==> rest != [] && Good(t, rest)
    requires checkpoint < t.lastCheckpoint ==>
             FilesGive(files, t.freq, t.Last(), checkpoint + t.freq, t.lastCheckpoint, rest)
    requires VerifyFile(t, checkpoint, files(checkpoint), ahead).0 == OK
    ensures var n := VerifyFile(t, checkpoint, files(checkpoint), ahead).1;
            FilesGive(files, t.freq, t.Last(), checkpoint, t.lastCheckpoint, Extended(t, files(checkpoint), n, rest))
  {
    var file := files(checkpoint);
    ReadReaches(t, file, 0);
    assert file[0..] == file;
    if checkpoint == t.lastCheckpoint {
      LastFileGives(files, t.freq, t.Last(), checkpoint);
    } else if ReachesEnd(file, t.Last()) {
      EndFileSpoils(files, t.freq, t.Last(), checkpoint, t.lastCheckpoint, rest, t.trustedEnd);
    } else {
      FileBeforeGives(files, t.freq, t.Last(), checkpoint, t.lastCheckpoint, rest);
    }
  }

  /** What is known when a checkpoint's file is next. */
  ghost predicate Pending(t: Task, files: nat -> seq<Entry>, checkpoint: nat, ahead: NumHash, rest: seq<Entry>)
    requires t.Valid()
  {
    && IsCheckpoint(checkpoint, t.freq) && t.firstCheckpoint <= checkpoint <= t.lastCheckpoint
    && (checkpoint == t.lastCheckpoint ==> rest == [] && ahead == NumHash(0, None))
    && (checkpoint < t.lastCheckpoint ==> Found(t, files, checkpoint + t.freq, ahead, rest))
  }

  /** What the files from a checkpoint on were found to be, and what must come
      before them. */
  ghost predicate Found(t: Task, files: nat -> seq<Entry>, checkpoint: nat, before: NumHash, es: seq<Entry>)
    requires t.Valid()
  {
    es != [] && Good(t, es) && before == Before(es[0])
      && FilesGive(files, t.freq, t.Last(), checkpoint, t.lastCheckpoint, es)
  }

  lemma {:induction false} FoundMore(t: Task, files: nat -> seq<Entry>, checkpoint: nat, ahead: NumHash,
                                     rest: seq<Entry>)
    requires t.Valid() && Pending(t, files, checkpoint, ahead, rest)
    requires VerifyFile(t, checkpoint, files(checkpoint), ahead).0 == OK
    ensures var file, n := files(checkpoint), VerifyFile(t, checkpoint, files(checkpoint), ahead).1;
            && Found(t, files, checkpoint, Before(file[0]), Extended(t, file, n, rest))
            && Extended(t, file, n, rest)[0] == file[0]
  {
    FileGives(t, checkpoint, files(checkpoint), ahead, rest);
    FilesGiveMore(t, files, checkpoint, ahead, rest);
  }

  lemma {:induction false} PendingBefore(t: Task, files: nat -> seq<Entry>, checkpoint: nat, before: NumHash,
                                         es: seq<Entry>)
    requires t.Valid() && IsCheckpoint(checkpoint, t.freq) && t.firstCheckpoint < checkpoint <= t.lastCheckpoint
    requires Found(t, files, checkpoint, before, es)
    ensures checkpoint >= t.freq && Pending(t, files, checkpoint - t.freq, before, es)
  {
    StepBack(t.firstCheckpoint, checkpoint, t.freq);
  }

  /** A successful run starts with a file that passes, and goes on from there. */
  ghost predicate Succeeds(t: Task, files: nat -> seq<Entry>, checkpoint: nat, ahead: NumHash, rest: seq<Entry>,
                           es: seq<Entry>)
    requires t.Valid()
  {
    && IsCheckpoint(checkpoint, t.freq) && checkpoint >= t.firstCheckpoint
    && Backward(t, files, checkpoint, ahead, rest) == (OK, es)
  }

  lemma {:induction false} SucceedsAtFirst(t: Task, files: nat -> seq<Entry>, ahead: NumHash, rest: seq<Entry>,
                                           es: seq<Entry>)
    requires t.Valid() && Succeeds(t, files, t.firstCheckpoint, ahead, rest, es)
    ensures var file, v := files(t.firstCheckpoint), VerifyFile(t, t.firstCheckpoint, files(t.firstCheckpoint), ahead);
            v.0 == OK && es == Extended(t, file, v.1, rest)
  {
  }

  lemma {:induction false} SucceedsBefore(t: Task, files: nat -> seq<Entry>, checkpoint: nat, ahead: NumHash,
                                          rest: seq<Entry>, es: seq<Entry>)
    requires t.Valid() && checkpoint > t.firstCheckpoint && Succeeds(t, files, checkpoint, ahead, rest, es)
    ensures var file, v := files(checkpoint), VerifyFile(t, checkpoint, files(checkpoint), ahead);
            v.0 == OK && checkpoint >= t.freq
              && Succeeds(t, files, checkpoint - t.freq, Before(file[0]), Extended(t, file, v.1, rest), es)
  {
    StepBack(t.firstCheckpoint, checkpoint, t.freq);
  }

  lemma {:induction false} FirstFileCompletes(t: Task, files: nat -> seq<Entry>, ahead: NumHash, rest: seq<Entry>)
    requires t.Valid() && Pending(t, files, t.firstCheckpoint, ahead, rest)
    requires VerifyFile(t, t.firstCheckpoint, files(t.firstCheckpoint), ahead).0 == OK
    ensures var file := files(t.firstCheckpoint);
            Complete(t, files, Extended(t, file, VerifyFile(t, t.firstCheckpoint, file, ahead).1, rest))
  {
    FoundMore(t, files, t.firstCheckpoint, ahead, rest);
  }

  lemma {:induction false} NextPending(t: Task, files: nat -> seq<Entry>, checkpoint: nat, ahead: NumHash,
                                       rest: seq<Entry>)
    requires t.Valid() && Pending(t, files, checkpoint, ahead, rest) && checkpoint > t.firstCheckpoint
    requires VerifyFile(t, checkpoint, files(checkpoint), ahead).0 == OK
    ensures var file, n := files(checkpoint), VerifyFile(t, checkpoint, files(checkpoint), ahead).1;
            checkpoint >= t.freq && Pending(t, files, checkpoint - t.freq, Before(file[0]), Extended(t, file, n, rest))
  {
    var file, n := files(checkpoint), VerifyFile(t, checkpoint, files(checkpoint), ahead).1;
    FoundMore(t, files, checkpoint, ahead, rest);
    PendingBefore(t, files, checkpoint, Before(file[0]), Extended(t, file, n, rest));
  }

  lemma {:induction false} EarlierPending(t: Task, files: nat -> seq<Entry>, checkpoint: nat, ahead: NumHash,
                                          rest: seq<Entry>, es: seq<Entry>)
    returns (earlier: nat, ahead': NumHash, rest': seq<Entry>)
    requires t.Valid() && Pending(t, files, checkpoint, ahead, rest) && Succeeds(t, files, checkpoint, ahead, rest, es)
    requires checkpoint > t.firstCheckpoint
    ensures VerifyFile(t, checkpoint, files(checkpoint), ahead).0 == OK && earlier + t.freq == checkpoint
    ensures Pending(t, files, earlier, ahead', rest') && Succeeds(t, files, earlier, ahead', rest', es)
  {
    var file, n := files(checkpoint), VerifyFile(t, checkpoint, files(checkpoint), ahead).1;
    SucceedsBefore(t, files, checkpoint, ahead, rest, es);
    NextPending(t, files, checkpoint, ahead, rest);
    earlier, ahead', rest' := checkpoint - t.freq, Before(file[0]), Extended(t, file, n, rest);
  }

  lemma {:induction false} BackwardGives(t: Task, files: nat -> seq<Entry>, checkpoint: nat, ahead: NumHash,
                                         rest: seq<Entry>, es: seq<Entry>)
    requires t.Valid() && Pending(t, files, checkpoint, ahead, rest) && Succeeds(t, files, checkpoint, ahead, rest, es)
    ensures Complete(t, files, es)
    decreases checkpoint
  {
    if checkpoint == t.firstCheckpoint {
      SucceedsAtFirst(t, files, ahead, rest, es);
      FirstFileCompletes(t, files, ahead, rest);
    } else {
      var earlier, ahead', rest' := EarlierPending(t, files, checkpoint, ahead, rest, es);
      BackwardGives(t, files, earlier, ahead', rest', es);
    }
  }

  ghost predicate Complete(t: Task, files: nat -> seq<Entry>, es: seq<Entry>)
    requires t.Valid()
  {
    && files(t.firstCheckpoint) != [] && es != [] && es[0] == files(t.firstCheckpoint)[0]
    && Found(t, files, t.firstCheckpoint, Before(es[0]), es)
  }

  /** On success what was verified is one gap-free linked chain, from the first
      header of the first file up to the end of the range, that agrees with the
      last closed ledger and the trusted hash. */
  lemma {:induction false} SuccessIsChain(t: Task, files: nat -> seq<Entry>)
    requires t.Valid() && Outcome(t, files).0 == OK
    ensures var es := Outcome(t, files).1;
            Good(t, es) && files(t.firstCheckpoint) != [] && es[0] == files(t.firstCheckpoint)[0]
  {
    BackwardGives(t, files, t.lastCheckpoint, NumHash(0, None), [], Outcome(t, files).1);
  }

  /** On success the files joined are the verified chain exactly when no earlier
      file holds the last ledger of the range; otherwise they are no chain. */
  lemma {:induction false} SuccessIsFilesIffTidy(t: Task, files: nat -> seq<Entry>)
    requires t.Valid() && Outcome(t, files).0 == OK
    ensures var joined := Joined(files, t.freq, t.Last(), t.firstCheckpoint, t.lastCheckpoint);
            && (Linked(joined) <==> Tidy(files, t.freq, t.Last(), t.firstCheckpoint, t.lastCheckpoint))
            && (Linked(joined) ==> joined == Outcome(t, files).1)
  {
    BackwardGives(t, files, t.lastCheckpoint, NumHash(0, None), [], Outcome(t, files).1);
  }

  // ----- Exactly which files pass -----

  /** What is read of a checkpoint's file. */
  function Part(t: Task, files: nat -> seq<Entry>, c: nat): (es: seq<Entry>) {
    files(c)[..Reach(files(c), t.Last())]
  }

  /** A file passes if what is read of it is a chain that either ends the range, with
      the trusted hash and nothing to come after it, or ends at its checkpoint and is
      followed by the next file. */
  ghost predicate FilePasses(t: Task, files: nat -> seq<Entry>, c: nat)
    requires t.lastClosed.hash.Some?
  {
    var part := Part(t, files, c);
    && part != [] && Chain(t.sha, t.lastClosed, part)
    && var e := part[|part| - 1];
       if e.header.ledgerSeq == t.Last() then
         && (t.trustedEnd.hash.Some? ==> e.hash == t.trustedEnd.hash.value)
         && (c == t.lastCheckpoint || (files(c + t.freq) != [] && files(c + t.freq)[0].header.ledgerSeq == 1))
       else e.header.ledgerSeq == c < t.lastCheckpoint && files(c + t.freq) != [] && Link(e, files(c + t.freq)[0])
  }

  ghost predicate PassFrom(t: Task, files: nat -> seq<Entry>, from: nat)
    requires t.Valid()
  {
    forall c :: from <= c <= t.lastCheckpoint && IsCheckpoint(c, t.freq) ==> FilePasses(t, files, c)
  }

  lemma {:induction false} ChainEntry(t: Task, file: seq<Entry>, n: nat, i: nat)
    requires t.lastClosed.hash.Some? && i < n <= |file| && Chain(t.sha, t.lastClosed, file[..n])
    ensures CheckEntry(t, file, i) == OK
  {
    var part := file[..n];
    assert part[i] == file[i] && AgreesWithLCL(t.sha, t.lastClosed, part[i]);
    if i > 0 {
      assert part[i - 1] == file[i - 1] && Link(part[i - 1], part[i]);
    }
  }

  /** Why an entry is refused. */
  lemma {:induction false} Refused(t: Task, file: seq<Entry>, i: nat)
    requires t.lastClosed.hash.Some? && i < |file|
    ensures var e, s := file[i], CheckEntry(t, file, i);
            var known := e.header.body.ledgerVersion <= CURRENT_LEDGER_PROTOCOL_VERSION;
            var clash := !AgreesWithLCL(t.sha, t.lastClosed, e)
                         || (e.header.ledgerSeq == t.lastClosed.number + 1 && e.hash != t.sha(e.header));
            var distance := if i == 0 then 1 else e.header.ledgerSeq - file[i - 1].header.ledgerSeq;
            && (s == BAD_LEDGER_VERSION <==> !known)
            && (s == UNDERSHOT <==> known && !clash && distance < 1)
            && (s == OVERSHOT <==> known && !clash && distance > 1)
            && (s == BAD_HASH <==>
                  && known
                  && (clash || (distance == 1 && (e.hash != t.sha(e.header) || (i > 0 && !Link(file[i - 1], e))))))
            && s != MISSING_ENTRIES && s != ABORT
  {
  }

  /** A chain is read to its end. */
  lemma {:induction false} ChainIsRead(t: Task, file: seq<Entry>, i: nat)
    requires t.lastClosed.hash.Some? && i <= |file|
    requires Chain(t.sha, t.lastClosed, file[..i + Reach(file[i..], t.Last())])
    ensures Read(t, file, i).0 == OK
    decreases |file| - i
  {
    if i < |file| {
      ChainEntry(t, file, i + Reach(file[i..], t.Last()), i);
      if file[i].header.ledgerSeq != t.Last() {
        assert file[i..][1..] == file[i + 1..];
        ChainIsRead(t, file, i + 1);
      }
    }
  }

  lemma {:induction false} ReadIffChain(t: Task, file: seq<Entry>)
    requires t.lastClosed.hash.Some?
    ensures Read(t, file, 0).0 == OK <==> Chain(t.sha, t.lastClosed, file[..Reach(file, t.Last())])
    ensures Read(t, file, 0).0 == OK ==> Read(t, file, 0).1 == Reach(file, t.Last())
  {
    assert file[0..] == file && file[..0] == [];
    if Read(t, file, 0).0 == OK {
      ReadReaches(t, file, 0);
      ReadGives(t, file, 0);
    } else if Chain(t.sha, t.lastClosed, file[..Reach(file, t.Last())]) {
      ChainIsRead(t, file, 0);
    }
  }

  /** What must follow a checkpoint's file. */
  function Ahead(t: Task, files: nat -> seq<Entry>, c: nat): (ahead: NumHash) {
    if c >= t.lastCheckpoint || files(c + t.freq) == [] then NumHash(0, None) else Before(files(c + t.freq)[0])
  }

  lemma {:induction false} VerifiedIffPasses(t: Task, files: nat -> seq<Entry>, c: nat)
    requires t.Valid() && 0 < c <= t.lastCheckpoint && (c < t.lastCheckpoint ==> files(c + t.freq) != [])
    ensures VerifyFile(t, c, files(c), Ahead(t, files, c)).0 == OK <==> FilePasses(t, files, c)
  {
    ReadIffChain(t, files(c));
  }

  lemma {:induction false} PassOneMore(t: Task, files: nat -> seq<Entry>, c: nat)
    requires t.Valid() && IsCheckpoint(c, t.freq) && PassFrom(t, files, c + t.freq) && FilePasses(t, files, c)
    ensures PassFrom(t, files, c)
  {
    forall d | c <= d <= t.lastCheckpoint && IsCheckpoint(d, t.freq)
      ensures FilePasses(t, files, d)
    {
      if c < d {
        CheckpointsApart(c, d, t.freq);
      }
    }
  }

  /** Going back from a checkpoint succeeds, or not. */
  ghost predicate EndsWell(t: Task, files: nat -> seq<Entry>, c: nat, ahead: NumHash, rest: seq<Entry>, ok: bool)
    requires t.Valid()
  {
    && IsCheckpoint(c, t.freq) && t.firstCheckpoint <= c <= t.lastCheckpoint
    && ok == (Backward(t, files, c, ahead, rest).0 == OK)
  }

  ghost predicate IsAhead(t: Task, files: nat -> seq<Entry>, c: nat, ahead: NumHash) {
    ahead == Ahead(t, files, c) && (c < t.lastCheckpoint ==> files(c + t.freq) != [])
  }

  lemma {:induction false} EndsHere(t: Task, files: nat -> seq<Entry>, c: nat, ahead: NumHash, rest: seq<Entry>,
                                    ok: bool)
    requires t.Valid() && EndsWell(t, files, c, ahead, rest, ok) && IsAhead(t, files, c, ahead)
    requires c == t.firstCheckpoint || !FilePasses(t, files, c)
    ensures ok <==> FilePasses(t, files, c)
  {
    VerifiedIffPasses(t, files, c);
  }

  lemma {:induction false} EndsEarlier(t: Task, files: nat -> seq<Entry>, c: nat, ahead: NumHash, rest: seq<Entry>,
                                       ok: bool)
    returns (c': nat, ahead': NumHash, rest': seq<Entry>)
    requires t.Valid() && EndsWell(t, files, c, ahead, rest, ok) && IsAhead(t, files, c, ahead)
    requires t.firstCheckpoint < c && FilePasses(t, files, c)
    ensures c' + t.freq == c && EndsWell(t, files, c', ahead', rest', ok) && IsAhead(t, files, c', ahead')
  {
    VerifiedIffPasses(t, files, c);
    StepBack(t.firstCheckpoint, c, t.freq);
    c', ahead' := c - t.freq, Before(files(c)[0]);
    rest' := Extended(t, files(c), VerifyFile(t, c, files(c), ahead).1, rest);
  }

  lemma {:induction false} BackwardIff(t: Task, files: nat -> seq<Entry>, c: nat, ahead: NumHash, rest: seq<Entry>,
                                       next: nat, ok: bool)
    requires t.Valid() && EndsWell(t, files, c, ahead, rest, ok) && IsAhead(t, files, c, ahead)
    requires next == c + t.freq && PassFrom(t, files, next)
    ensures ok <==> PassFrom(t, files, t.firstCheckpoint)
    decreases c
  {
    if c == t.firstCheckpoint || !FilePasses(t, files, c) {
      EndsHere(t, files, c, ahead, rest, ok);
      if ok {
        PassOneMore(t, files, c);
      }
    } else {
      PassOneMore(t, files, c);
      var c', ahead', rest' := EndsEarlier(t, files, c, ahead, rest, ok);
      BackwardIff(t, files, c', ahead', rest', c, ok);
    }
  }

  /** Whatever the files: the verification succeeds if and only if each of them passes. */
  lemma {:induction false} SuccessIff(t: Task, files: nat -> seq<Entry>)
    requires t.Valid()
    ensures Outcome(t, files).0 == OK <==> PassFrom(t, files, t.firstCheckpoint)
  {
    BackwardIff(t, files, t.lastCheckpoint, NumHash(0, None), [], t.lastCheckpoint + t.freq, Outcome(t, files).0 == OK);
  }

  /** Every file is there; the last ends with the last ledger of the range, and each
      other one with its checkpoint's ledger. */
  ghost predicate AllThere(t: Task, files: nat -> seq<Entry>, from: nat)
    requires t.Valid()
  {
    forall c :: from <= c <= t.lastCheckpoint && IsCheckpoint(c, t.freq) ==> FileThere(t, files, c)
  }

  predicate FileThere(t: Task, files: nat -> seq<Entry>, c: nat) {
    var part := Part(t, files, c);
    part != [] && part[|part| - 1].header.ledgerSeq == if c == t.lastCheckpoint then t.Last() else c
  }

  lemma {:induction false} TidyAt(files: nat -> seq<Entry>, freq: nat, last: nat, from: nat, end: nat, c: nat)
    requires freq > 0 && Tidy(files, freq, last, from, end) && from <= c < end
    requires IsCheckpoint(from, freq) && IsCheckpoint(c, freq)
    ensures !ReachesEnd(files(c), last)
    decreases c - from
  {
    if from < c {
      CheckpointsApart(from, c, freq);
      TidyAt(files, freq, last, from + freq, end, c);
    }
  }

  lemma {:induction false} PassingAreThere(t: Task, files: nat -> seq<Entry>)
    requires t.Valid() && PassFrom(t, files, t.firstCheckpoint)
    requires Tidy(files, t.freq, t.Last(), t.firstCheckpoint, t.lastCheckpoint)
    ensures AllThere(t, files, t.firstCheckpoint)
  {
    forall c | t.firstCheckpoint <= c <= t.lastCheckpoint && IsCheckpoint(c, t.freq)
      ensures FileThere(t, files, c)
    {
      assert FilePasses(t, files, c);
      if c < t.lastCheckpoint {
        TidyAt(files, t.freq, t.Last(), t.firstCheckpoint, t.lastCheckpoint, c);
      }
    }
  }

  lemma {:induction false} ChainParts(sha: Header -> Hash, lcl: NumHash, a: seq<Entry>, b: seq<Entry>)
    requires lcl.hash.Some? && Chain(sha, lcl, a + b)
    ensures Chain(sha, lcl, a) && Chain(sha, lcl, b) && (a != [] && b != [] ==> Link(a[|a| - 1], b[0]))
  {
    var r := a + b;
    forall i | 0 <= i < |a|
      ensures a[i] == r[i]
    {
    }
    forall i | 0 <= i < |b|
      ensures b[i] == r[|a| + i]
    {
    }
    if a != [] && b != [] {
      assert Link(r[|a| - 1], r[|a|]);
    }
  }

  lemma {:induction false} JoinedPass(t: Task, files: nat -> seq<Entry>, from: nat)
    requires t.Valid() && IsCheckpoint(from, t.freq) && 0 < from <= t.lastCheckpoint
    requires Tidy(files, t.freq, t.Last(), from, t.lastCheckpoint) && AllThere(t, files, from)
    requires Good(t, Joined(files, t.freq, t.Last(), from, t.lastCheckpoint))
    ensures PassFrom(t, files, from)
    decreases t.lastCheckpoint - from
  {
    var part, next := Part(t, files, from), from + t.freq;
    var rest := Joined(files, t.freq, t.Last(), next, t.lastCheckpoint);
    assert FileThere(t, files, from);
    ChainParts(t.sha, t.lastClosed, part, rest);
    if from < t.lastCheckpoint {
      CheckpointsApart(from, t.lastCheckpoint, t.freq);
      JoinedFollows(t, files, from);
      JoinedPass(t, files, next);
    } else {
      assert part + rest == part;
    }
    PassOneMore(t, files, from);
  }

  lemma {:induction false} JoinedFollows(t: Task, files: nat -> seq<Entry>, from: nat)
    requires t.Valid() && IsCheckpoint(from, t.freq) && 0 < from && from + t.freq <= t.lastCheckpoint
    requires Tidy(files, t.freq, t.Last(), from, t.lastCheckpoint) && AllThere(t, files, from)
    requires Good(t, Joined(files, t.freq, t.Last(), from, t.lastCheckpoint))
    ensures Good(t, Joined(files, t.freq, t.Last(), from + t.freq, t.lastCheckpoint))
    ensures IsCheckpoint(from + t.freq, t.freq) && FilePasses(t, files, from)
  {
    var part, next := Part(t, files, from), from + t.freq;
    var rest := Joined(files, t.freq, t.Last(), next, t.lastCheckpoint);
    CheckpointAfter(from, t.freq);
    assert FileThere(t, files, from) && FileThere(t, files, next);
    assert rest[0] == files(next)[0];
    ChainParts(t.sha, t.lastClosed, part, rest);
    assert (part + rest)[|part + rest| - 1] == rest[|rest| - 1];
  }

  lemma {:induction false} CheckpointAfter(a: nat, freq: nat)
    requires freq > 0 && IsCheckpoint(a, freq)
    ensures IsCheckpoint(a + freq, freq)
  {
  }

  /** Tidy files pass, and are what was verified, if and only if they join to a good
      chain with each file there. */
  lemma {:induction false} TidySuccessIff(t: Task, files: nat -> seq<Entry>)
    requires t.Valid() && Tidy(files, t.freq, t.Last(), t.firstCheckpoint, t.lastCheckpoint)
    ensures var joined := Joined(files, t.freq, t.Last(), t.firstCheckpoint, t.lastCheckpoint);
            Outcome(t, files) == (OK, joined) <==> Good(t, joined) && AllThere(t, files, t.firstCheckpoint)
  {
    SuccessIff(t, files);
    if Outcome(t, files).0 == OK {
      SuccessIsChain(t, files);
      SuccessIsFilesIffTidy(t, files);
      PassingAreThere(t, files);
    } else if Good(t, Joined(files, t.freq, t.Last(), t.firstCheckpoint, t.lastCheckpoint))
              && AllThere(t, files, t.firstCheckpoint) {
      JoinedPass(t, files, t.firstCheckpoint);
    }
  }

  // ----- What is known of each header -----

  /** A header that hashes right and is not beyond the range; the one at the end has
      the trusted hash. */
  predicate Trusted(sha: Header -> Hash, end: NumHash, e: Entry) {
    && e.hash == sha(e.header) && e.header.ledgerSeq <= end.number
    && (e.header.ledgerSeq == end.number && end.hash.Some? ==> e.hash == end.hash.value)
  }

  predicate AllTrusted(t: Task, es: seq<Entry>) {
    forall i :: 0 <= i < |es| ==> Trusted(t.sha, t.trustedEnd, es[i])
  }

  lemma {:induction false} GoodTrusted(t: Task, es: seq<Entry>)
    requires t.lastClosed.hash.Some? && Good(t, es)
    ensures AllTrusted(t, es)
  {
    forall i | 0 <= i < |es|
      ensures Trusted(t.sha, t.trustedEnd, es[i])
    {
      Numbered(es, i);
      Numbered(es, |es| - 1);
    }
  }

  lemma {:induction false} FileTrusted(t: Task, files: nat -> seq<Entry>, checkpoint: nat, ahead: NumHash,
                                       rest: seq<Entry>)
    requires t.Valid() && Pending(t, files, checkpoint, ahead, rest)
    requires VerifyFile(t, checkpoint, files(checkpoint), ahead).0 == OK
    ensures AllTrusted(t, files(checkpoint)[..Reach(files(checkpoint), t.Last())])
  {
    var file, n := files(checkpoint), VerifyFile(t, checkpoint, files(checkpoint), ahead).1;
    FileGives(t, checkpoint, file, ahead, rest);
    ReadReaches(t, file, 0);
    assert file[0..] == file;
    var es := Extended(t, file, n, rest);
    GoodTrusted(t, es);
    forall i | 0 <= i < n
      ensures Trusted(t.sha, t.trustedEnd, file[..n][i])
    {
      assert es[i] == file[i];
    }
  }

  /** The files from a checkpoint on hold trusted headers, as far as they are read. */
  predicate TrustedFrom(t: Task, files: nat -> seq<Entry>, from: nat)
    requires t.Valid()
  {
    AllTrusted(t, Joined(files, t.freq, t.Last(), from, t.lastCheckpoint))
  }

  lemma {:induction false} TrustedMore(t: Task, files: nat -> seq<Entry>, from: nat, next: nat)
    requires t.Valid() && from <= t.lastCheckpoint && next == from + t.freq && TrustedFrom(t, files, next)
    requires AllTrusted(t, files(from)[..Reach(files(from), t.Last())])
    ensures TrustedFrom(t, files, from)
  {
  }

  lemma {:induction false} TrustedNext(t: Task, files: nat -> seq<Entry>, checkpoint: nat, ahead: NumHash,
                                       rest: seq<Entry>, next: nat)
    requires t.Valid() && Pending(t, files, checkpoint, ahead, rest)
    requires next == checkpoint + t.freq && TrustedFrom(t, files, next)
    requires VerifyFile(t, checkpoint, files(checkpoint), ahead).0 == OK
    ensures TrustedFrom(t, files, checkpoint)
  {
    FileTrusted(t, files, checkpoint, ahead, rest);
    TrustedMore(t, files, checkpoint, next);
  }

  lemma {:induction false} BackwardTrusted(t: Task, files: nat -> seq<Entry>, checkpoint: nat, ahead: NumHash,
                                           rest: seq<Entry>, es: seq<Entry>, next: nat)
    requires t.Valid() && Pending(t, files, checkpoint, ahead, rest) && Succeeds(t, files, checkpoint, ahead, rest, es)
    requires next == checkpoint + t.freq && TrustedFrom(t, files, next)
    ensures TrustedFrom(t, files, t.firstCheckpoint)
    decreases checkpoint
  {
    if checkpoint == t.firstCheckpoint {
      SucceedsAtFirst(t, files, ahead, rest, es);
      TrustedNext(t, files, checkpoint, ahead, rest, next);
    } else {
      var earlier, ahead', rest' := EarlierPending(t, files, checkpoint, ahead, rest, es);
      TrustedNext(t, files, checkpoint, ahead, rest, next);
      BackwardTrusted(t, files, earlier, ahead', rest', es, checkpoint);
    }
  }

  /** On success each header that the files hold can be trusted, even if the files do
      not join to one chain. */
  lemma {:induction false} SuccessIsTrusted(t: Task, files: nat -> seq<Entry>)
    requires t.Valid() && Outcome(t, files).0 == OK
    ensures AllTrusted(t, Joined(files, t.freq, t.Last(), t.firstCheckpoint, t.lastCheckpoint))
  {
    BackwardTrusted(t, files, t.lastCheckpoint, NumHash(0, None), [], Outcome(t, files).1, t.lastCheckpoint + t.freq);
  }

  /** A header with its hash, following one with hash `previous`. */
  function Following(sha: Header -> Hash, number: nat, previous: Hash): (e: Entry) {
    var header := Header(number, previous, Body(0, 0));
    Entry(header, sha(header))
  }

  function UntidyFiles(one: Entry, two: Entry, three: Entry): (files: nat -> seq<Entry>) {
    (c: nat) => if c == 3 then [one, two, three] else if c == 1 then [three] else []
  }

  /** Untidy files can pass: the last file holds ledgers 1 to 3, the one before
      it just ledger 3, which is the end of the range. */
  lemma {:induction false} UntidyCanPass(sha: Header -> Hash)
    ensures var one := Following(sha, 1, 0);
            var two := Following(sha, 2, one.hash);
            var three := Following(sha, 3, two.hash);
            var t := Task(sha, 2, 1, 3, NumHash(1, Some(one.hash)), NumHash(3, Some(three.hash)));
            && t.Valid() && Outcome(t, UntidyFiles(one, two, three)) == (OK, [three])
            && !Tidy(UntidyFiles(one, two, three), 2, 3, 1, 3)
  {
    var one := Following(sha, 1, 0);
    var two := Following(sha, 2, one.hash);
    var three := Following(sha, 3, two.hash);
    var t := Task(sha, 2, 1, 3, NumHash(1, Some(one.hash)), NumHash(3, Some(three.hash)));
    assert Mask(2, 2) == 2 && Mask(4, 2) == 4;
    var files, all, last := UntidyFiles(one, two, three), [one, two, three], [three];
    assert Read(t, all, 2) == (OK, 3) && Read(t, all, 1) == (OK, 3) && Read(t, all, 0) == (OK, 3);
    assert Read(t, last, 0) == (OK, 1) && last[..1] == last && all[..3] == all;
    assert VerifyFile(t, 3, files(3), NumHash(0, None)) == (OK, 3);
    assert Before(one) == NumHash(0, Some(0));
    assert VerifyFile(t, 1, files(1), Before(one)) == (OK, 1);
    assert Backward(t, files, 1, Before(one), all) == (OK, last);
    assert Reach(last, 3) == 1;
  }

  // ----- Is it the only one? -----

  function FromEnd(es: seq<Entry>, d: nat): (e: Entry)
    requires d < |es|
  {
    es[|es| - 1 - d]
  }

  ghost predicate SameSuffix(a: seq<Entry>, b: seq<Entry>) {
    forall d :: 0 <= d < |a| && d < |b| ==> FromEnd(a, d) == FromEnd(b, d)
  }

  /** With an injective hash and a trusted hash for the end, two sets of files
      that pass agree as far back as both go, and give the same chain exactly
      when their first files begin with the same ledger number. */
  lemma {:induction false} PassingFilesAgree(t: Task, files: nat -> seq<Entry>, others: nat -> seq<Entry>)
    requires t.Valid() && t.trustedEnd.hash.Some? && Injective(t.sha)
    requires Outcome(t, files).0 == OK && Outcome(t, others).0 == OK
    ensures var a, b, c := Outcome(t, files).1, Outcome(t, others).1, t.firstCheckpoint;
            && SameSuffix(a, b) && files(c) != [] && others(c) != []
            && (a == b <==> files(c)[0].header.ledgerSeq == others(c)[0].header.ledgerSeq)
  {
    SuccessIsChain(t, files);
    SuccessIsChain(t, others);
    var a, b := Outcome(t, files).1, Outcome(t, others).1;
    forall d | 0 <= d < |a| && d < |b|
      ensures FromEnd(a, d) == FromEnd(b, d)
    {
      ChainsAgree(t.sha, a, b, t.trustedEnd, d);
    }
    if a[0].header.ledgerSeq == b[0].header.ledgerSeq {
      ChainUnique(t.sha, a, b, t.trustedEnd);
    }
  }

  /** The one file of a range of one checkpoint. */
  function OneFile(file: seq<Entry>): (files: nat -> seq<Entry>) {
    (c: nat) => if c == 7 then file else []
  }

  /** Where the first file starts is not checked: headers 5, 6 and 7 pass, and so
      does header 7 alone. */
  lemma {:induction false} StartNotChecked(sha: Header -> Hash)
    ensures var five := Following(sha, 5, 0);
            var six := Following(sha, 6, five.hash);
            var seven := Following(sha, 7, six.hash);
            var t := Task(sha, 8, 7, 7, NumHash(1, Some(0)), NumHash(7, Some(seven.hash)));
            && t.Valid()
            && Outcome(t, OneFile([five, six, seven])) == (OK, [five, six, seven])
            && Outcome(t, OneFile([seven])) == (OK, [seven])
  {
    var five := Following(sha, 5, 0);
    var six := Following(sha, 6, five.hash);
    var seven := Following(sha, 7, six.hash);
    var t := Task(sha, 8, 7, 7, NumHash(1, Some(0)), NumHash(7, Some(seven.hash)));
    assert Mask(8, 8) == 8;
    var long, short := [five, six, seven], [seven];
    assert Read(t, long, 2) == (OK, 3) && Read(t, long, 1) == (OK, 3) && Read(t, long, 0) == (OK, 3);
    assert Read(t, short, 0) == (OK, 1);
    assert long[..3] == long && short[..1] == short;
  }

  // ----- Joining chains -----

  lemma {:induction false} SuffixNotLinked(a: seq<Entry>, b: seq<Entry>)
    requires !Linked(b)
    ensures !Linked(a + b)
  {
    var i, j :| 0 <= i < j < |b| && j == i + 1 && !Link(b[i], b[j]);
    assert (a + b)[|a| + i] == b[i] && (a + b)[|a| + j] == b[j];
  }

  lemma {:induction false} NotLinked(a: seq<Entry>, b: seq<Entry>)
    requires a != [] && b != [] && b[0].header.ledgerSeq != a[|a| - 1].header.ledgerSeq + 1
    ensures !Linked(a + b)
  {
    assert (a + b)[|a|] == b[0] && (a + b)[|a| - 1] == a[|a| - 1];
  }

  lemma {:induction false} ChainMore(sha: Header -> Hash, lcl: NumHash, file: seq<Entry>, n: nat)
    requires lcl.hash.Some? && n < |file| && Chain(sha, lcl, file[..n])
    requires AgreesWithLCL(sha, lcl, file[n]) && file[n].header.body.ledgerVersion <= CURRENT_LEDGER_PROTOCOL_VERSION
             && sha(file[n].header) == file[n].hash
    requires n > 0 ==> Link(file[n - 1], file[n])
    ensures Chain(sha, lcl, file[..n + 1])
  {
    var a, b := file[..n], file[..n + 1];
    forall i, j | 0 <= i < j < |b| && j == i + 1
      ensures Link(b[i], b[j])
    {
      assert j < n ==> Link(a[i], a[j]);
    }
    forall i | 0 <= i < |b|
      ensures b[i].hash == sha(b[i].header) && AgreesWithLCL(sha, lcl, b[i])
              && b[i].header.body.ledgerVersion <= CURRENT_LEDGER_PROTOCOL_VERSION
    {
      assert i < n ==> a[i] == b[i];
    }
  }

  lemma {:induction false} ChainJoin(sha: Header -> Hash, lcl: NumHash, a: seq<Entry>, b: seq<Entry>)
    requires lcl.hash.Some? && Chain(sha, lcl, a) && Chain(sha, lcl, b) && a != [] && b != []
    requires Link(a[|a| - 1], b[0])
    ensures Chain(sha, lcl, a + b)
  {
    var r := a + b;
    forall i, j | 0 <= i < j < |r| && j == i + 1
      ensures Link(r[i], r[j])
    {
      assert j < |a| ==> Link(a[i], a[j]);
      assert i >= |a| ==> Link(b[i - |a|], b[j - |a|]);
    }
  }
}
