/** The ledger manager's states while closing ledgers and catching up
    (src/ledger/LedgerManagerImpl.cpp, src/ledger/SyncingLedgerChain.cpp), driven
    by the herder, by an automatic catchup work (src/catchup/CatchupWork.cpp,
    src/catchup/ApplyLedgerChainWork.cpp) and by the main thread.

    `Step` says what each event does; LedgerManagerObject has the program, proved
    to do the same and never to fail an assert. An exception that nothing
    catches ends the run. */
module LedgerManager {
  import opened BucketFile
  import opened CatchupRange
  import V = VerifyChain

  type Hash = V.Hash
  type Header = V.Header
  type Body = V.Body

  /** A header with its hash, as kept for the last closed ledger and as read
      from history files. */
  type Closed = V.Entry

  /** What consensus says of a ledger to close. */
  datatype CloseData = CloseData(ledgerSeq: nat, previousLedgerHash: Hash)

  datatype State = LM_BOOTING_STATE | LM_SYNCED_STATE | LM_CATCHING_UP_STATE

  datatype CatchupState =
    | NONE
    | WAITING_FOR_TRIGGER_LEDGER
    | APPLYING_HISTORY
    | APPLYING_BUFFERED_LEDGERS
    | WAITING_FOR_CLOSING_LEDGER

  /** Where the catchup work is: before replaying ledgers, replaying them, after
      a failed replay that may be retried, or with all of them replayed. */
  datatype Phase = PREPARING | REPLAYING | FAILED | REPLAYED

  /** A catchup towards a ledger with a trusted hash. */
  datatype Catchup = Catchup(toLedger: nat, hash: Hash, phase: Phase, lastApplied: Closed, retries: nat)

  const RETRY_A_FEW: nat := 5

  datatype Node = Node(
    state: State,
    catchupState: CatchupState,
    lcl: Closed,
    syncingLedgers: seq<CloseData>,
    triggerLedger: nat,
    work: Option<Catchup>,
    /** applyBufferedLedgers has been posted to the main thread. */
    posted: bool)

  datatype Event =
    /** The herder reports consensus; closing would give a header this body. */
    | Externalized(lcd: CloseData, body: Body)
    /** The catchup has applied the buckets of a verified ledger. */
    | BucketsApplied(h: Closed)
    | ReplayStarted
    /** A verified header comes up for replay. Closing it may throw, or give a
        header with this body. */
    | HeaderReplayed(h: Closed, closes: bool, body: Body)
    /** A file ends and the next one is opened. */
    | FileEnded
    | Retried
    /** Any part of the catchup fails for good. */
    | WorkFailed
    | WorkFinished
    | PostedRun(body: Body)

  // ----- The buffered chain -----

  predicate Contiguous(chain: seq<CloseData>) {
    forall i :: 0 <= i < |chain| ==> chain[i].ledgerSeq == chain[0].ledgerSeq + i
  }

  /** SyncingLedgerChain's push. */
  function Push(chain: seq<CloseData>, lcd: CloseData): (r: seq<CloseData>)
    ensures r != []
  {
    if chain == [] || chain[|chain| - 1].ledgerSeq + 1 == lcd.ledgerSeq then chain + [lcd] else chain
  }

  lemma {:induction false} PushContiguous(chain: seq<CloseData>, lcd: CloseData)
    requires Contiguous(chain)
    ensures Contiguous(Push(chain, lcd)) && (chain != [] ==> Push(chain, lcd)[0] == chain[0])
  {
  }

  // ----- What each event does -----

  /** closeLedger and advanceLedgerPointers: the next header names the last
      closed one, and is kept with its own hash. */
  function Next(sha: Header -> Hash, lcl: Closed, body: Body): (r: Closed) {
    var header := V.Header(lcl.header.ledgerSeq + 1, lcl.hash, body);
    V.Entry(header, sha(header))
  }

  /** A consistent close of the next ledger brings the node in sync, an old one
      is passed over and a later one starts a catchup; while catching up closes
      are buffered. True in the result: an exception. */
  function OnExternalized(sha: Header -> Hash, freq: nat, n: Node, lcd: CloseData, body: Body): (r: (Node, bool))
    requires freq > 0
  {
    var last := n.lcl.header.ledgerSeq;
    if n.state == LM_CATCHING_UP_STATE && n.catchupState != WAITING_FOR_CLOSING_LEDGER then
      (Triggered(n.(syncingLedgers := Push(n.syncingLedgers, lcd)), lcd.ledgerSeq), false)
    else if lcd.ledgerSeq == last + 1 then
      if lcd.previousLedgerHash == n.lcl.hash
      then (n.(lcl := Next(sha, n.lcl, body), state := LM_SYNCED_STATE, catchupState := NONE), false)
      else (n, true)
    else if lcd.ledgerSeq <= last then (n, false)
    else
      var waiting := n.(state := LM_CATCHING_UP_STATE, catchupState := WAITING_FOR_TRIGGER_LEDGER,
                        triggerLedger := NextCheckpointLedger(lcd.ledgerSeq, freq) + 1, syncingLedgers := [lcd]);
      (Triggered(waiting, lcd.ledgerSeq), false)
  }

  /** startCatchupIf: the catchup aims just before the first buffered ledger. */
  function Triggered(n: Node, lastReceived: nat): (r: Node)
    requires n.syncingLedgers != []
  {
    var front := n.syncingLedgers[0];
    if n.catchupState == WAITING_FOR_TRIGGER_LEDGER && lastReceived >= n.triggerLedger && front.ledgerSeq > 0 then
      n.(catchupState := APPLYING_HISTORY,
         work := Some(Catchup(front.ledgerSeq - 1, front.previousLedgerHash, PREPARING, n.lcl, 0)))
    else n
  }

  function OnWork(sha: Header -> Hash, n: Node, w: Catchup, e: Event): (r: (Node, bool)) {
    match e
    case BucketsApplied(h) =>
      if w.phase != PREPARING then (n, false)
      else if h.header.ledgerSeq < n.lcl.header.ledgerSeq then (n, true)
      else (n.(lcl := h), false)
    case ReplayStarted =>
      if w.phase != PREPARING then (n, false)
      else (n.(work := Some(w.(phase := REPLAYING, lastApplied := n.lcl))), false)
    case HeaderReplayed(h, closes, body) =>
      if w.phase != REPLAYING then (n, false) else (OnHeader(sha, n, w, h, closes, body), false)
    case FileEnded =>
      if w.phase != REPLAYING then (n, false) else (Replayed(n, w), false)
    case Retried =>
      if w.phase != FAILED || w.retries >= RETRY_A_FEW then (n, false)
      else (n.(work := Some(w.(phase := REPLAYING, lastApplied := n.lcl, retries := w.retries + 1))), false)
    case WorkFailed =>
      (n.(state := LM_BOOTING_STATE, catchupState := NONE, work := None, syncingLedgers := []), false)
    case WorkFinished =>
      if w.phase != REPLAYED then (n, false)
      else (Buffered(n.(work := None)), false)
    case _ => (n, false)
  }

  /** ApplyLedgerChainWork's onSuccess looks at the ledger number only. */
  function Replayed(n: Node, w: Catchup): (r: Node) {
    n.(work := Some(w.(phase := if n.lcl.header.ledgerSeq == w.toLedger then REPLAYED else REPLAYING)))
  }

  /** A header that fits where it stands in the chain: two or more before the
      last closed ledger, or agreeing with it. */
  predicate Knits(lcl: Closed, h: Closed) {
    || h.header.ledgerSeq + 1 < lcl.header.ledgerSeq
    || (h.header.ledgerSeq + 1 == lcl.header.ledgerSeq && h.hash == lcl.header.previousLedgerHash)
    || (h.header.ledgerSeq == lcl.header.ledgerSeq && h.hash == lcl.hash)
  }

  predicate Closable(lcl: Closed, h: Closed, closes: bool) {
    h.header.ledgerSeq == lcl.header.ledgerSeq + 1 && h.header.previousLedgerHash == lcl.hash && closes
  }

  function OnHeader(sha: Header -> Hash, n: Node, w: Catchup, h: Closed, closes: bool, body: Body): (r: Node) {
    if Knits(n.lcl, h) then Replayed(n, w)
    else if Closable(n.lcl, h, closes) then
      var closed := Next(sha, n.lcl, body);
      if closed.hash == h.hash then Replayed(n.(lcl := closed), w.(lastApplied := h))
      else n.(lcl := closed, work := Some(w.(phase := FAILED)))
    else n.(work := Some(w.(phase := FAILED)))
  }

  /** applyBufferedLedgers. */
  function Buffered(n: Node): (r: Node) {
    if n.syncingLedgers == [] then n.(catchupState := WAITING_FOR_CLOSING_LEDGER, posted := false)
    else n.(catchupState := APPLYING_BUFFERED_LEDGERS, posted := true)
  }

  function OnPosted(sha: Header -> Hash, n: Node, body: Body): (r: (Node, bool)) {
    if !n.posted || n.syncingLedgers == [] then (n, false)
    else if n.syncingLedgers[0].previousLedgerHash != n.lcl.hash
    then (n.(syncingLedgers := n.syncingLedgers[1..]), true)
    else (Buffered(n.(syncingLedgers := n.syncingLedgers[1..], lcl := Next(sha, n.lcl, body))), false)
  }

  /** Events that the state does not allow change nothing. */
  function Step(sha: Header -> Hash, freq: nat, n: Node, e: Event): (r: (Node, bool))
    requires freq > 0
  {
    if e.Externalized? then OnExternalized(sha, freq, n, e.lcd, e.body)
    else if e.PostedRun? then OnPosted(sha, n, e.body)
    else if n.work.Some? then OnWork(sha, n, n.work.value, e)
    else (n, false)
  }

  // ----- What every run keeps -----

  predicate RightHash(sha: Header -> Hash, c: Closed) {
    c.hash == sha(c.header)
  }

  /** Headers handed to a catchup can be trusted, given the hash of its target. */
  predicate Verified(sha: Header -> Hash, w: Catchup, h: Closed) {
    V.Trusted(sha, V.NumHash(w.toLedger, Some(w.hash)), h)
  }

  predicate EventOk(sha: Header -> Hash, work: Option<Catchup>, e: Event) {
    (e.BucketsApplied? || e.HeaderReplayed?) && work.Some? ==> Verified(sha, work.value, e.h)
  }

  /** While ledgers are replayed the work's last applied ledger is the last
      closed one: what historyCaughtup asserts of the hash. */
  predicate WorkOk(sha: Header -> Hash, n: Node, w: Catchup)
    requires n.syncingLedgers != []
  {
    && w.toLedger + 1 == n.syncingLedgers[0].ledgerSeq && w.hash == n.syncingLedgers[0].previousLedgerHash
    && n.lcl.header.ledgerSeq <= w.toLedger && w.retries <= RETRY_A_FEW
    && (w.phase == REPLAYING || w.phase == REPLAYED ==>
      w.lastApplied.hash == n.lcl.hash && RightHash(sha, w.lastApplied))
    && (w.phase == REPLAYED ==> n.lcl.header.ledgerSeq == w.toLedger)
  }

  predicate Ok(sha: Header -> Hash, n: Node) {
    && RightHash(sha, n.lcl) && Contiguous(n.syncingLedgers)
    && (n.catchupState != NONE <==> n.state == LM_CATCHING_UP_STATE)
    && (n.work.Some? <==> n.catchupState == APPLYING_HISTORY)
    && (n.posted <==> n.catchupState == APPLYING_BUFFERED_LEDGERS)
    && (n.syncingLedgers == [] <==> n.catchupState == NONE || n.catchupState == WAITING_FOR_CLOSING_LEDGER)
    && (n.catchupState == WAITING_FOR_TRIGGER_LEDGER ==> n.syncingLedgers[0].ledgerSeq > n.lcl.header.ledgerSeq + 1)
    && (n.catchupState == APPLYING_HISTORY ==> WorkOk(sha, n, n.work.value))
    && (n.catchupState == APPLYING_BUFFERED_LEDGERS ==> n.syncingLedgers[0].ledgerSeq == n.lcl.header.ledgerSeq + 1)
  }

  function Booted(lcl: Closed): (n: Node) {
    Node(LM_BOOTING_STATE, NONE, lcl, [], 0, None, false)
  }

  lemma {:induction false} TriggeredOk(sha: Header -> Hash, n: Node, lastReceived: nat)
    requires Ok(sha, n) && n.syncingLedgers != []
    ensures Ok(sha, Triggered(n, lastReceived))
  {
  }

  lemma {:induction false} ExternalizedOk(sha: Header -> Hash, freq: nat, n: Node, lcd: CloseData, body: Body)
    requires freq > 0 && Ok(sha, n)
    ensures Ok(sha, OnExternalized(sha, freq, n, lcd, body).0)
  {
    if n.state == LM_CATCHING_UP_STATE && n.catchupState != WAITING_FOR_CLOSING_LEDGER {
      PushContiguous(n.syncingLedgers, lcd);
      TriggeredOk(sha, n.(syncingLedgers := Push(n.syncingLedgers, lcd)), lcd.ledgerSeq);
    } else if lcd.ledgerSeq > n.lcl.header.ledgerSeq + 1 {
      var waiting := n.(state := LM_CATCHING_UP_STATE, catchupState := WAITING_FOR_TRIGGER_LEDGER,
                        triggerLedger := NextCheckpointLedger(lcd.ledgerSeq, freq) + 1, syncingLedgers := [lcd]);
      TriggeredOk(sha, waiting, lcd.ledgerSeq);
    }
  }

  lemma {:induction false} WorkStepOk(sha: Header -> Hash, n: Node, w: Catchup, e: Event)
    requires Ok(sha, n) && n.work == Some(w) && EventOk(sha, n.work, e)
    ensures Ok(sha, OnWork(sha, n, w, e).0)
  {
  }

  lemma {:induction false} PostedOk(sha: Header -> Hash, n: Node, body: Body)
    requires Ok(sha, n) && !OnPosted(sha, n, body).1
    ensures Ok(sha, OnPosted(sha, n, body).0)
  {
    if n.posted {
      var rest := n.syncingLedgers[1..];
      assert forall i :: 0 <= i < |rest| ==> rest[i] == n.syncingLedgers[i + 1];
    }
  }

  lemma {:induction false} StepOk(sha: Header -> Hash, freq: nat, n: Node, e: Event)
    requires freq > 0 && Ok(sha, n) && EventOk(sha, n.work, e) && !Step(sha, freq, n, e).1
    ensures Ok(sha, Step(sha, freq, n, e).0)
  {
    if e.Externalized? {
      ExternalizedOk(sha, freq, n, e.lcd, e.body);
    } else if e.PostedRun? {
      PostedOk(sha, n, e.body);
    } else if n.work.Some? {
      WorkStepOk(sha, n, n.work.value, e);
    }
  }

  lemma {:induction false} LCLNeverBack(sha: Header -> Hash, freq: nat, n: Node, e: Event)
    requires freq > 0
    ensures Step(sha, freq, n, e).0.lcl.header.ledgerSeq >= n.lcl.header.ledgerSeq
  {
  }

  /** A run of states, without an exception. */
  ghost predicate Run(sha: Header -> Hash, freq: nat, ns: seq<Node>, es: seq<Event>)
    requires freq > 0
  {
    && |ns| == |es| + 1
    && forall i :: 0 <= i < |es| ==>
      EventOk(sha, ns[i].work, es[i]) && Step(sha, freq, ns[i], es[i]) == (ns[i + 1], false)
  }

  /** In every run, from a node that has just booted: the sub-state, the buffer,
      the work and the posted callback stay in step, and the last closed ledger
      never goes back. */
  lemma {:induction false} RunOk(sha: Header -> Hash, freq: nat, ns: seq<Node>, es: seq<Event>, t: nat)
    requires freq > 0 && Run(sha, freq, ns, es) && t <= |es|
    requires RightHash(sha, ns[0].lcl) && ns[0] == Booted(ns[0].lcl)
    ensures Ok(sha, ns[t])
    ensures t > 0 ==> ns[t - 1].lcl.header.ledgerSeq <= ns[t].lcl.header.ledgerSeq
  {
    if t > 0 {
      RunOk(sha, freq, ns, es, t - 1);
      StepOk(sha, freq, ns[t - 1], es[t - 1]);
      LCLNeverBack(sha, freq, ns[t - 1], es[t - 1]);
    }
  }

  // ----- Where the headers of a catchup come from -----

  /** The header was read from files that were verified for this catchup. */
  ghost predicate FromFiles(sha: Header -> Hash, w: Catchup, h: Closed, t: V.Task, files: nat -> seq<Closed>) {
    && t.Valid() && t.sha == sha && t.trustedEnd == V.NumHash(w.toLedger, Some(w.hash))
    && V.Outcome(t, files).0 == V.OK
    && h in V.Joined(files, t.freq, t.Last(), t.firstCheckpoint, t.lastCheckpoint)
  }

  ghost predicate EventFromFiles(sha: Header -> Hash, work: Option<Catchup>, e: Event) {
    (e.BucketsApplied? || e.HeaderReplayed?) && work.Some? ==>
      exists t, files :: FromFiles(sha, work.value, e.h, t, files)
  }

  lemma {:induction false} FromFilesVerified(sha: Header -> Hash, work: Option<Catchup>, e: Event)
    requires EventFromFiles(sha, work, e)
    ensures EventOk(sha, work, e)
  {
    if (e.BucketsApplied? || e.HeaderReplayed?) && work.Some? {
      var t, files :| FromFiles(sha, work.value, e.h, t, files);
      V.SuccessIsTrusted(t, files);
    }
  }

  /** In every run whose catchups take their headers from files that passed the
      verification for their target, all that is proved of runs holds. */
  lemma {:induction false} VerifiedFilesRun(sha: Header -> Hash, freq: nat, ns: seq<Node>, es: seq<Event>, t: nat)
    requires freq > 0 && |ns| == |es| + 1 && t <= |es|
    requires forall i :: 0 <= i < |es| ==>
      EventFromFiles(sha, ns[i].work, es[i]) && Step(sha, freq, ns[i], es[i]) == (ns[i + 1], false)
    requires RightHash(sha, ns[0].lcl) && ns[0] == Booted(ns[0].lcl)
    ensures Run(sha, freq, ns, es) && Ok(sha, ns[t])
  {
    forall i | 0 <= i < |es|
      ensures EventOk(sha, ns[i].work, es[i])
    {
      FromFilesVerified(sha, ns[i].work, es[i]);
    }
    RunOk(sha, freq, ns, es, t);
  }

  /** With an injective hash the headers agree too, as historyCaughtup asserts
      when the work is finished. */
  lemma {:induction false} LastAppliedIsLCL(sha: Header -> Hash, n: Node)
    requires V.Injective(sha) && Ok(sha, n) && n.work.Some? && n.work.value.phase == REPLAYED
    ensures n.work.value.lastApplied == n.lcl
  {
    assert sha(n.work.value.lastApplied.header) == sha(n.lcl.header);
  }

  // ----- Does the last closed ledger have the trusted hash in the end? -----

  /** Replaying the target ledger closed it with another hash than the verified
      one. The work fails, but the ledger stays closed. */
  predicate Spoils(sha: Header -> Hash, n: Node, e: Event) {
    && n.work.Some? && n.work.value.phase == REPLAYING && e.HeaderReplayed?
    && e.h.header.ledgerSeq == n.work.value.toLedger && !Knits(n.lcl, e.h) && Closable(n.lcl, e.h, e.closes)
    && Next(sha, n.lcl, e.body).hash != e.h.hash
  }

  /** Whether the current catchup has been spoilt, after t events. */
  ghost predicate Spoilt(sha: Header -> Hash, ns: seq<Node>, es: seq<Event>, t: nat)
    requires t <= |es| < |ns|
  {
    t > 0 && ns[t].work.Some? && (Spoils(sha, ns[t - 1], es[t - 1]) || Spoilt(sha, ns, es, t - 1))
  }

  /** At the target the last closed ledger has the trusted hash exactly when the
      catchup was not spoilt. */
  predicate HashOk(n: Node, spoilt: bool) {
    n.work.Some? ==>
      && (n.work.value.phase == PREPARING || n.lcl.header.ledgerSeq < n.work.value.toLedger ==> !spoilt)
      && (n.lcl.header.ledgerSeq == n.work.value.toLedger ==> (n.lcl.hash == n.work.value.hash <==> !spoilt))
  }

  lemma {:induction false} HashStep(sha: Header -> Hash, freq: nat, n: Node, e: Event, spoilt: bool)
    requires freq > 0 && Ok(sha, n) && EventOk(sha, n.work, e) && !Step(sha, freq, n, e).1
    requires HashOk(n, spoilt) && (n.work.None? ==> !spoilt)
    ensures HashOk(Step(sha, freq, n, e).0, Spoils(sha, n, e) || spoilt)
  {
  }

  lemma {:induction false} HashRun(sha: Header -> Hash, freq: nat, ns: seq<Node>, es: seq<Event>, t: nat)
    requires freq > 0 && Run(sha, freq, ns, es) && t <= |es|
    requires RightHash(sha, ns[0].lcl) && ns[0] == Booted(ns[0].lcl)
    ensures HashOk(ns[t], Spoilt(sha, ns, es, t))
  {
    if t > 0 {
      HashRun(sha, freq, ns, es, t - 1);
      RunOk(sha, freq, ns, es, t - 1);
      assert Step(sha, freq, ns[t - 1], es[t - 1]) == (ns[t], false);
      HashStep(sha, freq, ns[t - 1], es[t - 1], Spoilt(sha, ns, es, t - 1));
    }
  }

  /** When a catchup finishes, the last closed ledger fits under the first
      buffered one exactly when the catchup was not spoilt; if it was, replaying
      that buffered ledger throws. */
  lemma {:induction false} FinishedFits(sha: Header -> Hash, freq: nat, ns: seq<Node>, es: seq<Event>, t: nat,
                                        body: Body)
    requires freq > 0 && Run(sha, freq, ns, es) && t < |es|
    requires RightHash(sha, ns[0].lcl) && ns[0] == Booted(ns[0].lcl)
    requires es[t].WorkFinished? && ns[t].work.Some? && ns[t].work.value.phase == REPLAYED
    ensures var n := ns[t + 1];
            && n.catchupState == APPLYING_BUFFERED_LEDGERS && n.lcl == ns[t].lcl
            && (n.lcl.hash == n.syncingLedgers[0].previousLedgerHash <==> !Spoilt(sha, ns, es, t))
            && (Step(sha, freq, n, PostedRun(body)).1 <==> Spoilt(sha, ns, es, t))
  {
    RunOk(sha, freq, ns, es, t);
    HashRun(sha, freq, ns, es, t);
  }

  // ----- A run that ends with the wrong hash -----

  /** Another outcome of closing the same ledger. */
  function OtherBody(two: Closed): (b: Body) {
    two.header.body.(rest := two.header.body.rest + 1)
  }

  /** The node is at ledger 1; the network closes 3 and 4, so the node catches up
      to ledger 2. Replaying it gives another header than the verified one and
      fails. The retry passes over an old header and finds the ledger number
      reached. */
  function BadRun(lcl: Closed, two: Closed): (es: seq<Event>) {
    [Externalized(CloseData(3, two.hash), lcl.header.body), Externalized(CloseData(4, 0), lcl.header.body),
     ReplayStarted, HeaderReplayed(two, true, OtherBody(two)), Retried,
     HeaderReplayed(lcl, true, lcl.header.body), WorkFinished]
  }

  /** A node catching up in the bad run. */
  function BadNode(lcl: Closed, two: Closed, phase: Phase, lastApplied: Closed, retries: nat): (n: Node) {
    Node(LM_CATCHING_UP_STATE, APPLYING_HISTORY, lcl, [CloseData(3, two.hash), CloseData(4, 0)], 4,
         Some(Catchup(2, two.hash, phase, lastApplied, retries)), false)
  }

  function BadStates(lcl: Closed, two: Closed, other: Closed): (ns: seq<Node>) {
    var waiting := Node(LM_CATCHING_UP_STATE, WAITING_FOR_TRIGGER_LEDGER, lcl, [CloseData(3, two.hash)], 4, None,
      false);
    var end := BadNode(other, two, REPLAYED, other, 1);
    [Booted(lcl), waiting, BadNode(lcl, two, PREPARING, lcl, 0), BadNode(lcl, two, REPLAYING, lcl, 0),
     BadNode(other, two, FAILED, lcl, 0), BadNode(other, two, REPLAYING, other, 1), end,
     end.(catchupState := APPLYING_BUFFERED_LEDGERS, work := None, posted := true)]
  }

  lemma {:induction false} BadStart(sha: Header -> Hash, lcl: Closed, two: Closed, other: Closed)
    requires lcl.header.ledgerSeq == 1
    ensures var ns, es := BadStates(lcl, two, other), BadRun(lcl, two);
            Step(sha, 1, ns[0], es[0]) == (ns[1], false) && Step(sha, 1, ns[1], es[1]) == (ns[2], false)
  {
    assert NextCheckpointLedger(3, 1) == 3;
    assert [CloseData(3, two.hash)] + [CloseData(4, 0)] == [CloseData(3, two.hash), CloseData(4, 0)];
  }

  lemma {:induction false} BadReplay(sha: Header -> Hash, lcl: Closed, two: Closed, other: Closed)
    requires lcl.header.ledgerSeq == 1 && two.header.ledgerSeq == 2 && two.header.previousLedgerHash == lcl.hash
    requires other == Next(sha, lcl, OtherBody(two)) && other.hash != two.hash
    ensures var ns, es := BadStates(lcl, two, other), BadRun(lcl, two);
            && Step(sha, 1, ns[2], es[2]) == (ns[3], false) && Step(sha, 1, ns[3], es[3]) == (ns[4], false)
            && Step(sha, 1, ns[4], es[4]) == (ns[5], false) && Step(sha, 1, ns[5], es[5]) == (ns[6], false)
            && Step(sha, 1, ns[6], es[6]) == (ns[7], false)
  {
  }

  /** The run exists for every hash function under which the two headers of
      ledger 2 differ. */
  lemma {:induction false} FinishedWithWrongHash(sha: Header -> Hash, lcl: Closed, two: Closed, other: Closed)
    requires RightHash(sha, lcl) && RightHash(sha, two)
    requires lcl.header.ledgerSeq == 1 && two.header.ledgerSeq == 2 && two.header.previousLedgerHash == lcl.hash
    requires other == Next(sha, lcl, OtherBody(two)) && other.hash != two.hash
    ensures var ns, es := BadStates(lcl, two, other), BadRun(lcl, two);
            && Run(sha, 1, ns, es) && ns[0] == Booted(lcl)
            && ns[7].catchupState == APPLYING_BUFFERED_LEDGERS
            && ns[7].lcl.hash != ns[7].syncingLedgers[0].previousLedgerHash
            && Step(sha, 1, ns[7], PostedRun(lcl.header.body)).1
  {
    BadStart(sha, lcl, two, other);
    BadReplay(sha, lcl, two, other);
  }

  function BadFiles(lcl: Closed, two: Closed): (files: nat -> seq<Closed>) {
    (c: nat) => if c == 1 then [lcl] else if c == 2 then [two] else []
  }

  lemma {:induction false} BadFilesPass(sha: Header -> Hash, lcl: Closed, two: Closed, t: V.Task)
    requires RightHash(sha, lcl) && RightHash(sha, two)
    requires lcl.header.ledgerSeq == 1 && two.header.ledgerSeq == 2 && two.header.previousLedgerHash == lcl.hash
    requires lcl.header.body.ledgerVersion <= V.CURRENT_LEDGER_PROTOCOL_VERSION
    requires two.header.body.ledgerVersion <= V.CURRENT_LEDGER_PROTOCOL_VERSION
    requires t == V.Task(sha, 1, 1, 2, V.NumHash(1, Some(lcl.hash)), V.NumHash(2, Some(two.hash)))
    ensures t.Valid() && V.Outcome(t, BadFiles(lcl, two)).0 == V.OK
    ensures forall h :: h in {lcl, two} ==> h in V.Joined(BadFiles(lcl, two), 1, 2, 1, 2)
  {
    var files, one, last := BadFiles(lcl, two), [lcl], [two];
    assert V.Read(t, last, 0) == (V.OK, 1) && V.Read(t, one, 1) == (V.OK, 1) && V.Read(t, one, 0) == (V.OK, 1);
    assert V.VerifyFile(t, 2, files(2), V.NumHash(0, None)) == (V.OK, 1);
    assert last[..1] == last && V.Extended(t, last, 1, []) == last;
    assert V.VerifyFile(t, 1, files(1), V.Before(two)) == (V.OK, 1);
    assert V.Backward(t, files, 1, V.Before(two), last).0 == V.OK;
    assert one[1..] == [] && V.Reach(one, 2) == 1 && V.Reach(last, 2) == 1;
    assert V.Joined(files, 1, 2, 2, 2) == last + V.Joined(files, 1, 2, 3, 2);
    assert V.Joined(files, 1, 2, 1, 2) == one[..1] + V.Joined(files, 1, 2, 2, 2);
  }

  /** The headers of that run pass the verification, if their versions are known. */
  lemma {:induction false} WrongHashFromVerifiedFiles(sha: Header -> Hash, lcl: Closed, two: Closed, other: Closed,
                                                      i: nat)
    requires RightHash(sha, lcl) && RightHash(sha, two)
    requires lcl.header.ledgerSeq == 1 && two.header.ledgerSeq == 2 && two.header.previousLedgerHash == lcl.hash
    requires lcl.header.body.ledgerVersion <= V.CURRENT_LEDGER_PROTOCOL_VERSION
    requires two.header.body.ledgerVersion <= V.CURRENT_LEDGER_PROTOCOL_VERSION
    requires i < |BadRun(lcl, two)|
    ensures EventFromFiles(sha, BadStates(lcl, two, other)[i].work, BadRun(lcl, two)[i])
  {
    var e, work := BadRun(lcl, two)[i], BadStates(lcl, two, other)[i].work;
    var t := V.Task(sha, 1, 1, 2, V.NumHash(1, Some(lcl.hash)), V.NumHash(2, Some(two.hash)));
    BadFilesPass(sha, lcl, two, t);
    if e.HeaderReplayed? {
      assert e.h in {lcl, two} && work.value.toLedger == 2 && work.value.hash == two.hash;
      assert FromFiles(sha, work.value, e.h, t, BadFiles(lcl, two));
    }
  }
}
