/** What each event does to the ledger manager (src/ledger/LedgerManagerImpl.cpp,
    src/catchup/ApplyLedgerChainWork.cpp), read off the node before and after, and that a
    catchup that went well ends in sync. */
module ManagerLaws {
  import opened BucketFile
  import opened LevelArithmetic
  import opened CatchupRange
  import V = VerifyChain
  import opened LedgerManager

  // ----- Consensus -----

  /** While catching up, except for the very last ledger, closes are kept for later. */
  predicate Buffering(n: Node) {
    n.state == LM_CATCHING_UP_STATE && n.catchupState != WAITING_FOR_CLOSING_LEDGER
  }

  /** The ledger one higher that names the hash of the last closed one. */
  predicate Follows(sha: Header -> Hash, lcl: Closed, next: Closed, body: Body) {
    && next.header.ledgerSeq == lcl.header.ledgerSeq + 1 && next.header.previousLedgerHash == lcl.hash
    && next.header.body == body && next.hash == sha(next.header)
  }

  /** The next ledger, built on the last closed one, brings the node in sync. */
  lemma {:induction false} NextLedgerSyncs(sha: Header -> Hash, freq: nat, n: Node, lcd: CloseData, body: Body)
    requires freq > 0 && !Buffering(n)
    requires lcd.ledgerSeq == n.lcl.header.ledgerSeq + 1 && lcd.previousLedgerHash == n.lcl.hash
    ensures var r := Step(sha, freq, n, Externalized(lcd, body));
            && !r.1 && r.0.state == LM_SYNCED_STATE && r.0.catchupState == NONE && Follows(sha, n.lcl, r.0.lcl, body)
            && r.0 == n.(state := r.0.state, catchupState := r.0.catchupState, lcl := r.0.lcl)
  {
  }

  /** Built on another ledger it is an exception, and an old ledger is passed over. */
  lemma {:induction false} OtherLedgersRefused(sha: Header -> Hash, freq: nat, n: Node, lcd: CloseData, body: Body)
    requires freq > 0 && !Buffering(n)
    ensures var r := Step(sha, freq, n, Externalized(lcd, body));
            && (lcd.ledgerSeq <= n.lcl.header.ledgerSeq ==> r == (n, false))
            && (lcd.ledgerSeq == n.lcl.header.ledgerSeq + 1 && lcd.previousLedgerHash != n.lcl.hash ==> r == (n, true))
  {
  }

  /** The ledger after the end of the checkpoint that is due next. */
  predicate IsTrigger(freq: nat, ledger: nat, trigger: nat)
    requires freq > 0
  {
    && trigger > 0 && (trigger - 1) % freq == 0 && trigger - 1 >= ledger
    && forall m :: ledger <= m < trigger - 1 ==> m % freq != 0
  }

  lemma {:induction false} CheckpointIsLeast(ledger: nat, freq: nat)
    requires freq > 0 && ledger > 0
    ensures IsTrigger(freq, ledger, NextCheckpointLedger(ledger, freq) + 1)
  {
    var next := NextCheckpointLedger(ledger, freq);
    MaskMultiple(ledger + freq - 1, freq);
    MaskIsMod(next, freq);
    forall m | ledger <= m < next
      ensures m % freq != 0
    {
      MaskIsMod(m, freq);
      if Multiple(m, freq) {
        MultipleOrder(m, next, freq);
      }
    }
  }

  /** A later ledger starts a catchup: it is kept, and the catchup waits for the end of
      the checkpoint that it is in. */
  lemma {:induction false} LaterLedgerStarts(sha: Header -> Hash, freq: nat, n: Node, lcd: CloseData, body: Body)
    requires freq > 0 && !Buffering(n) && lcd.ledgerSeq > n.lcl.header.ledgerSeq + 1
    ensures var r := Step(sha, freq, n, Externalized(lcd, body));
            && !r.1 && r.0.state == LM_CATCHING_UP_STATE && r.0.catchupState == WAITING_FOR_TRIGGER_LEDGER
            && r.0.syncingLedgers == [lcd] && IsTrigger(freq, lcd.ledgerSeq, r.0.triggerLedger)
            && r.0.lcl == n.lcl && r.0.work == n.work && r.0.posted == n.posted
  {
    CheckpointIsLeast(lcd.ledgerSeq, freq);
  }

  /** While buffering, the ledger after the last kept one is kept too. Once the trigger
      ledger is reached, a catchup begins to just before the first kept ledger, with the
      hash that this one names. */
  lemma {:induction false} BufferingKeeps(sha: Header -> Hash, freq: nat, n: Node, lcd: CloseData, body: Body)
    requires freq > 0 && Buffering(n)
    ensures var r, chain := Step(sha, freq, n, Externalized(lcd, body)), n.syncingLedgers;
            var fits := chain == [] || lcd.ledgerSeq == chain[|chain| - 1].ledgerSeq + 1;
            var kept := if fits then chain + [lcd] else chain;
            var due := n.catchupState == WAITING_FOR_TRIGGER_LEDGER && lcd.ledgerSeq >= n.triggerLedger
                       && kept[0].ledgerSeq > 0;
            && !r.1 && r.0.state == n.state && r.0.lcl == n.lcl && r.0.syncingLedgers == kept
            && r.0.triggerLedger == n.triggerLedger && r.0.posted == n.posted
            && r.0.catchupState == (if due then APPLYING_HISTORY else n.catchupState)
            && (!due ==> r.0.work == n.work)
            && (due ==>
                  && r.0.work.Some? && r.0.work.value.toLedger == kept[0].ledgerSeq - 1
                  && r.0.work.value.hash == kept[0].previousLedgerHash
                  && r.0.work.value.phase == PREPARING && r.0.work.value.retries == 0)
  {
  }

  // ----- Buffered ledgers -----

  /** One kept ledger is closed; the last one leaves the node waiting for one more. */
  lemma {:induction false} PostedLaw(sha: Header -> Hash, freq: nat, n: Node, body: Body)
    requires freq > 0 && n.posted && n.syncingLedgers != []
    ensures var r, rest := Step(sha, freq, n, PostedRun(body)), n.syncingLedgers[1..];
            && r.0.syncingLedgers == rest && r.0.state == n.state && r.0.work == n.work
            && (r.1 <==> n.syncingLedgers[0].previousLedgerHash != n.lcl.hash)
            && (r.1 ==> r.0.lcl == n.lcl)
            && (!r.1 ==>
                  && Follows(sha, n.lcl, r.0.lcl, body) && (r.0.posted <==> rest != [])
                  && r.0.catchupState == if rest == [] then WAITING_FOR_CLOSING_LEDGER else APPLYING_BUFFERED_LEDGERS)
  {
  }

  // ----- The catchup work -----

  /** Applying buckets takes over the verified header, but never an older one. */
  lemma {:induction false} BucketsLaw(sha: Header -> Hash, freq: nat, n: Node, h: Closed)
    requires freq > 0 && n.work.Some? && n.work.value.phase == PREPARING
    ensures var r := Step(sha, freq, n, BucketsApplied(h));
            && (r.1 <==> h.header.ledgerSeq < n.lcl.header.ledgerSeq)
            && r.0 == if r.1 then n else n.(lcl := h)
  {
  }

  /** Replaying begins, and begins again up to five times, at the last closed ledger. */
  lemma {:induction false} ReplayLaw(sha: Header -> Hash, freq: nat, n: Node)
    requires freq > 0 && n.work.Some?
    ensures var w, start, again := n.work.value, Step(sha, freq, n, ReplayStarted), Step(sha, freq, n, Retried);
            && !start.1 && !again.1
            && (w.phase != PREPARING ==> start.0 == n)
            && (w.phase == PREPARING ==>
                  start.0 == n.(work := Some(Catchup(w.toLedger, w.hash, REPLAYING, n.lcl, w.retries))))
            && (w.phase != FAILED || w.retries >= 5 ==> again.0 == n)
            && (w.phase == FAILED && w.retries < 5 ==>
                  again.0 == n.(work := Some(Catchup(w.toLedger, w.hash, REPLAYING, n.lcl, w.retries + 1))))
  {
  }

  /** A header is passed over if it is well in the past or agrees with the last closed
      ledger; the next one is closed, and kept closed even if its hash comes out wrong;
      any other ends the attempt. */
  lemma {:induction false} HeaderLaw(sha: Header -> Hash, freq: nat, n: Node, h: Closed, closes: bool, body: Body)
    requires freq > 0 && n.work.Some? && n.work.value.phase == REPLAYING
    ensures var r, w, at := Step(sha, freq, n, HeaderReplayed(h, closes, body)), n.work.value, n.lcl.header.ledgerSeq;
            var past := h.header.ledgerSeq + 1 < at
                        || (h.header.ledgerSeq + 1 == at && h.hash == n.lcl.header.previousLedgerHash)
                        || (h.header.ledgerSeq == at && h.hash == n.lcl.hash);
            var next := h.header.ledgerSeq == at + 1 && h.header.previousLedgerHash == n.lcl.hash && closes;
            && !r.1 && r.0.work.Some? && r.0 == n.(lcl := r.0.lcl, work := r.0.work)
            && r.0.work.value == w.(phase := r.0.work.value.phase, lastApplied := r.0.work.value.lastApplied)
            && (if next then Follows(sha, n.lcl, r.0.lcl, body) else r.0.lcl == n.lcl)
            && (r.0.work.value.phase == FAILED <==> !past && !(next && r.0.lcl.hash == h.hash))
            && (r.0.work.value.phase != FAILED ==>
                  r.0.work.value.phase == if r.0.lcl.header.ledgerSeq == w.toLedger then REPLAYED else REPLAYING)
            && r.0.work.value.lastApplied == (if next && r.0.lcl.hash == h.hash then h else w.lastApplied)
  {
  }

  /** The end of a file ends the replay if the target is reached. */
  lemma {:induction false} FileLaw(sha: Header -> Hash, freq: nat, n: Node)
    requires freq > 0 && n.work.Some?
    ensures var r, w := Step(sha, freq, n, FileEnded), n.work.value;
            var phase := if n.lcl.header.ledgerSeq == w.toLedger then REPLAYED else REPLAYING;
            r == (if w.phase == REPLAYING then n.(work := Some(w.(phase := phase))) else n, false)
  {
  }

  /** A failed catchup throws the kept ledgers away and leaves the node booting; a
      finished one goes on with them. */
  lemma {:induction false} EndLaw(sha: Header -> Hash, freq: nat, n: Node)
    requires freq > 0 && n.work.Some?
    ensures var failed, finished := Step(sha, freq, n, WorkFailed), Step(sha, freq, n, WorkFinished);
            && !failed.1
            && failed.0 == n.(state := LM_BOOTING_STATE, catchupState := NONE, work := None, syncingLedgers := [])
            && !finished.1 && finished.0.lcl == n.lcl && finished.0.syncingLedgers == n.syncingLedgers
            && (n.work.value.phase != REPLAYED ==> finished.0 == n)
            && (n.work.value.phase == REPLAYED ==>
                  && finished.0.work.None? && finished.0.state == n.state
                  && (n.syncingLedgers != [] ==>
                        finished.0.posted && finished.0.catchupState == APPLYING_BUFFERED_LEDGERS))
  {
  }

  /** Without a catchup its events do nothing. */
  lemma {:induction false} NoWorkLaw(sha: Header -> Hash, freq: nat, n: Node, e: Event)
    requires freq > 0 && n.work.None? && !e.Externalized? && !e.PostedRun?
    ensures Step(sha, freq, n, e) == (n, false)
  {
  }

  // ----- A catchup that goes well ends in sync -----

  /** The node after the events, and whether one of them was an exception. */
  function After(sha: Header -> Hash, freq: nat, n: Node, es: seq<Event>): (r: (Node, bool))
    requires freq > 0
    decreases |es|
  {
    if es == [] then (n, false)
    else
      var r := Step(sha, freq, n, es[0]);
      if r.1 then r else After(sha, freq, r.0, es[1..])
  }

  /** The last closed ledger once ledgers with these bodies have been closed. */
  function LastOf(sha: Header -> Hash, lcl: Closed, bodies: seq<Body>): (r: Closed)
    decreases |bodies|
  {
    if bodies == [] then lcl
    else
      var header := V.Header(lcl.header.ledgerSeq + 1, lcl.hash, bodies[0]);
      LastOf(sha, V.Entry(header, sha(header)), bodies[1..])
  }

  /** Each kept ledger is built on the one that closes before it. */
  predicate Fit(sha: Header -> Hash, lcl: Closed, chain: seq<CloseData>, bodies: seq<Body>) {
    |chain| == |bodies| &&
    forall i :: 0 <= i < |chain| ==> chain[i].previousLedgerHash == LastOf(sha, lcl, bodies[..i]).hash
  }

  lemma {:induction false} FitRest(sha: Header -> Hash, lcl: Closed, next: Closed, chain: seq<CloseData>,
                                   bodies: seq<Body>)
    requires chain != [] && Fit(sha, lcl, chain, bodies) && Follows(sha, lcl, next, bodies[0])
    ensures chain[0].previousLedgerHash == lcl.hash
    ensures Fit(sha, next, chain[1..], bodies[1..]) && LastOf(sha, next, bodies[1..]) == LastOf(sha, lcl, bodies)
  {
    assert bodies[..0] == [];
    forall i | 0 <= i < |chain| - 1
      ensures chain[1..][i].previousLedgerHash == LastOf(sha, next, bodies[1..][..i]).hash
    {
      assert chain[i + 1].previousLedgerHash == LastOf(sha, lcl, bodies[..i + 1]).hash;
      assert bodies[..i + 1][1..] == bodies[1..][..i];
    }
  }

  /** A node with nothing left to do but to wait for the closing ledger. */
  predicate Waiting(n: Node) {
    && n.state == LM_CATCHING_UP_STATE && n.catchupState == WAITING_FOR_CLOSING_LEDGER
    && n.syncingLedgers == [] && n.work.None? && !n.posted
  }

  predicate Draining(n: Node) {
    && n.state == LM_CATCHING_UP_STATE && n.catchupState == APPLYING_BUFFERED_LEDGERS
    && n.syncingLedgers != [] && n.work.None? && n.posted
  }

  lemma {:induction false} Drain(sha: Header -> Hash, freq: nat, n: Node, bodies: seq<Body>, es: seq<Event>)
    requires freq > 0 && Draining(n) && Fit(sha, n.lcl, n.syncingLedgers, bodies)
    requires |es| == |bodies| && forall i :: 0 <= i < |es| ==> es[i] == PostedRun(bodies[i])
    ensures var r := After(sha, freq, n, es); !r.1 && Waiting(r.0) && r.0.lcl == LastOf(sha, n.lcl, bodies)
    decreases |bodies|
  {
    var n' := Step(sha, freq, n, es[0]).0;
    assert bodies[..0] == [];
    PostedLaw(sha, freq, n, bodies[0]);
    FitRest(sha, n.lcl, n'.lcl, n.syncingLedgers, bodies);
    if |bodies| > 1 {
      Drain(sha, freq, n', bodies[1..], es[1..]);
    } else {
      assert es[1..] == [] && bodies[1..] == [];
    }
  }

  lemma {:induction false} AfterConcat(sha: Header -> Hash, freq: nat, n: Node, a: seq<Event>, b: seq<Event>)
    requires freq > 0 && !After(sha, freq, n, a).1
    ensures After(sha, freq, n, a + b) == After(sha, freq, After(sha, freq, n, a).0, b)
    decreases |a|
  {
    if a == [] {
      assert a + b == b;
    } else {
      assert (a + b)[1..] == a[1..] + b;
      AfterConcat(sha, freq, Step(sha, freq, n, a[0]).0, a[1..], b);
    }
  }

  /** The events from the end of the replay to the closing ledger. */
  function ToTheEnd(bodies: seq<Body>, lcd: CloseData, body: Body): (es: seq<Event>) {
    [WorkFinished] + seq(|bodies|, i requires 0 <= i < |bodies| => PostedRun(bodies[i])) + [Externalized(lcd, body)]
  }

  /** A replay that is done, kept ledgers that fit on it and on each other, and then the
      next ledger of the network: the node is in sync. */
  lemma {:induction false} CatchupEndsInSync(sha: Header -> Hash, freq: nat, n: Node, bodies: seq<Body>, lcd: CloseData,
                                             body: Body)
    requires freq > 0 && Ok(sha, n) && n.work.Some? && n.work.value.phase == REPLAYED
    requires Fit(sha, n.lcl, n.syncingLedgers, bodies)
    requires var last := LastOf(sha, n.lcl, bodies);
             lcd.ledgerSeq == last.header.ledgerSeq + 1 && lcd.previousLedgerHash == last.hash
    ensures var r := After(sha, freq, n, ToTheEnd(bodies, lcd, body));
            && !r.1 && r.0.state == LM_SYNCED_STATE && r.0.catchupState == NONE && r.0.syncingLedgers == []
            && r.0.work.None? && r.0.lcl.header.ledgerSeq == lcd.ledgerSeq
  {
    var posted := seq(|bodies|, i requires 0 <= i < |bodies| => PostedRun(bodies[i]));
    var one, last := [WorkFinished], [Externalized(lcd, body)];
    EndLaw(sha, freq, n);
    var n' := Step(sha, freq, n, WorkFinished).0;
    assert one[1..] == [] && After(sha, freq, n, one) == (n', false);
    Drain(sha, freq, n', bodies, posted);
    AfterConcat(sha, freq, n, one, posted);
    AfterConcat(sha, freq, n, one + posted, last);
    var waiting := After(sha, freq, n', posted).0;
    NextLedgerSyncs(sha, freq, waiting, lcd, body);
    assert last[1..] == [];
  }

  /** In every run from boot: a catchup that finishes unspoilt, with kept ledgers that
      fit on each other, comes in sync with the next ledger of the network. */
  lemma {:induction false} UnspoiltCatchupSyncs(sha: Header -> Hash, freq: nat, ns: seq<Node>, es: seq<Event>, t: nat,
                                                bodies: seq<Body>, lcd: CloseData, body: Body)
    requires freq > 0 && Run(sha, freq, ns, es) && t < |es|
    requires RightHash(sha, ns[0].lcl) && ns[0] == Booted(ns[0].lcl)
    requires es[t].WorkFinished? && ns[t].work.Some? && ns[t].work.value.phase == REPLAYED && !Spoilt(sha, ns, es, t)
    requires |bodies| == |ns[t].syncingLedgers|
    requires forall i :: 0 < i < |bodies| ==>
               ns[t].syncingLedgers[i].previousLedgerHash == LastOf(sha, ns[t].lcl, bodies[..i]).hash
    requires var last := LastOf(sha, ns[t].lcl, bodies);
             lcd.ledgerSeq == last.header.ledgerSeq + 1 && lcd.previousLedgerHash == last.hash
    ensures var r := After(sha, freq, ns[t], ToTheEnd(bodies, lcd, body));
            !r.1 && r.0.state == LM_SYNCED_STATE && r.0.lcl.header.ledgerSeq == lcd.ledgerSeq
  {
    RunOk(sha, freq, ns, es, t);
    FinishedFits(sha, freq, ns, es, t, body);
    assert bodies[..0] == [];
    assert Fit(sha, ns[t].lcl, ns[t].syncingLedgers, bodies) by {
      assert Step(sha, freq, ns[t], es[t]) == (ns[t + 1], false);
      EndLaw(sha, freq, ns[t]);
    }
    CatchupEndsInSync(sha, freq, ns[t], bodies, lcd, body);
  }
}
