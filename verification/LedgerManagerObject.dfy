/** The ledger manager's code, event by event, proved to do what LedgerManager's
    `Step` says. The program's asserts appear as asserts: in a state that a run
    can reach none of them fails. */
module LedgerManagerObject {
  import opened BucketFile
  import opened CatchupRange
  import V = VerifyChain
  import opened LedgerManager

  datatype CloseLedgerIfResult = CLOSED | TOO_OLD | TOO_NEW | THROWN

  class Manager {
    const sha: Header -> Hash
    const freq: nat
    var state: State
    var catchupState: CatchupState
    var lcl: Closed
    var syncingLedgers: seq<CloseData>
    var triggerLedger: nat
    /** The catchup work in progress, with its mLastApplied and retries. */
    var work: Option<Catchup>
    var posted: bool

    ghost function Abs(): (n: Node)
      reads this
    {
      Node(state, catchupState, lcl, syncingLedgers, triggerLedger, work, posted)
    }

    ghost predicate Valid()
      reads this
    {
      freq > 0 && Ok(sha, Abs())
    }

    constructor (sha: Header -> Hash, freq: nat, lcl: Closed)
      requires freq > 0 && RightHash(sha, lcl)
      ensures this.sha == sha && this.freq == freq && Valid() && Abs() == Booted(lcl)
    {
      this.sha, this.freq, this.lcl := sha, freq, lcl;
      state, catchupState, syncingLedgers, triggerLedger, work, posted := LM_BOOTING_STATE, NONE, [], 0, None, false;
    }

    // ----- States -----

    method SetState(s: State)
      modifies this`state, this`catchupState
      ensures state == s
      ensures catchupState == if s != old(state) && s != LM_CATCHING_UP_STATE then NONE else old(catchupState)
    {
      if s != state {
        state := s;
        if state != LM_CATCHING_UP_STATE {
          catchupState := NONE;
        }
      }
    }

    method SetCatchupState(s: CatchupState)
      modifies this`state, this`catchupState
      ensures state == LM_CATCHING_UP_STATE && catchupState == s
    {
      catchupState := s;
      SetState(LM_CATCHING_UP_STATE);
    }

    /** A node that starts a network of its own is in sync. */
    method Bootstrap()
      requires Valid() && catchupState == NONE
      modifies this
      ensures Valid() && Abs() == old(Abs()).(state := LM_SYNCED_STATE)
    {
      SetState(LM_SYNCED_STATE);
    }

    // ----- Closing -----

    /** closeLedger throws on a set built on another ledger. */
    method CloseLedger(previousLedgerHash: Hash, body: Body) returns (thrown: bool)
      modifies this`lcl
      ensures thrown <==> previousLedgerHash != old(lcl).hash
      ensures lcl == if thrown then old(lcl) else Next(sha, old(lcl), body)
    {
      var header := V.Header(lcl.header.ledgerSeq + 1, lcl.hash, body);
      if previousLedgerHash != lcl.hash {
        return true;
      }
      lcl := V.Entry(header, sha(header));
      return false;
    }

    method CloseLedgerIf(lcd: CloseData, body: Body) returns (r: CloseLedgerIfResult)
      modifies this`lcl
      ensures lcl == if r == CLOSED then Next(sha, old(lcl), body) else old(lcl)
      ensures r == CLOSED <==> lcd.ledgerSeq == old(lcl).header.ledgerSeq + 1 && lcd.previousLedgerHash == old(lcl).hash
      ensures r == TOO_NEW <==> lcd.ledgerSeq > old(lcl).header.ledgerSeq + 1
      ensures r == TOO_OLD <==> lcd.ledgerSeq <= old(lcl).header.ledgerSeq
    {
      if lcl.header.ledgerSeq + 1 == lcd.ledgerSeq {
        if lcl.hash == lcd.previousLedgerHash {
          var thrown := CloseLedger(lcd.previousLedgerHash, body);
          return CLOSED;
        } else {
          return THROWN;
        }
      } else if lcd.ledgerSeq <= lcl.header.ledgerSeq {
        return TOO_OLD;
      } else {
        return TOO_NEW;
      }
    }

    // ----- Starting a catchup -----

    /** A target that is not newer than the last closed ledger is refused, and so
        is a second catchup. */
    method StartCatchup(toLedger: nat, hash: Hash) returns (thrown: bool)
      requires syncingLedgers != []
      modifies this`state, this`catchupState, this`work
      ensures thrown <==> toLedger <= lcl.header.ledgerSeq || old(work).Some?
      ensures thrown ==> work == old(work)
      ensures !thrown ==> state == LM_CATCHING_UP_STATE && catchupState == APPLYING_HISTORY
      ensures !thrown ==> work == Some(Catchup(toLedger, hash, PREPARING, lcl, 0))
    {
      if toLedger <= lcl.header.ledgerSeq {
        return true;
      }
      SetCatchupState(APPLYING_HISTORY);
      assert !(syncingLedgers == []);
      if work.Some? {
        return true;
      }
      work := Some(Catchup(toLedger, hash, PREPARING, lcl, 0));
      return false;
    }

    method StartCatchupIf(lastReceived: nat)
      requires Valid() && state == LM_CATCHING_UP_STATE && syncingLedgers != []
      modifies this`state, this`catchupState, this`work
      ensures Abs() == Triggered(old(Abs()), lastReceived)
    {
      assert syncingLedgers != [];
      assert catchupState != NONE;
      if catchupState != WAITING_FOR_TRIGGER_LEDGER {
        return;
      }
      if lastReceived >= triggerLedger {
        SetCatchupState(APPLYING_HISTORY);
        var front := syncingLedgers[0];
        var thrown := StartCatchup(front.ledgerSeq - 1, front.previousLedgerHash);
        assert !thrown;
      }
    }

    method InitializeCatchup(lcd: CloseData)
      requires Valid() && catchupState == NONE && lcd.ledgerSeq > lcl.header.ledgerSeq + 1
      modifies this`state, this`catchupState, this`syncingLedgers, this`triggerLedger, this`work
      ensures Abs() == OnExternalized(sha, freq, old(Abs()), lcd, V.Body(0, 0)).0
    {
      assert state != LM_CATCHING_UP_STATE;
      assert catchupState == NONE;
      assert syncingLedgers == [];
      SetState(LM_CATCHING_UP_STATE);
      triggerLedger := NextCheckpointLedger(lcd.ledgerSeq, freq) + 1;
      SetCatchupState(WAITING_FOR_TRIGGER_LEDGER);
      syncingLedgers := Push(syncingLedgers, lcd);
      StartCatchupIf(lcd.ledgerSeq);
    }

    method ContinueCatchup(lcd: CloseData)
      requires Valid() && state == LM_CATCHING_UP_STATE && catchupState != WAITING_FOR_CLOSING_LEDGER
      modifies this`state, this`catchupState, this`syncingLedgers, this`work
      ensures Abs() == Triggered(old(Abs()).(syncingLedgers := Push(old(syncingLedgers), lcd)), lcd.ledgerSeq)
    {
      assert state == LM_CATCHING_UP_STATE;
      PushContiguous(syncingLedgers, lcd);
      syncingLedgers := Push(syncingLedgers, lcd);
      StartCatchupIf(lcd.ledgerSeq);
    }

    method FinalizeCatchup(lcd: CloseData, body: Body) returns (thrown: bool)
      requires Valid() && catchupState == WAITING_FOR_CLOSING_LEDGER
      modifies this
      ensures (Abs(), thrown) == OnExternalized(sha, freq, old(Abs()), lcd, body)
    {
      assert state == LM_CATCHING_UP_STATE;
      assert catchupState == WAITING_FOR_CLOSING_LEDGER;
      assert syncingLedgers == [];
      thrown := false;
      var r := CloseLedgerIf(lcd, body);
      match r {
        case CLOSED => SetState(LM_SYNCED_STATE);
        case TOO_OLD =>
        case TOO_NEW =>
          SetState(LM_BOOTING_STATE);
          InitializeCatchup(lcd);
        case THROWN => thrown := true;
      }
    }

    /** Called by the herder. */
    method ValueExternalized(lcd: CloseData, body: Body) returns (thrown: bool)
      requires Valid()
      modifies this
      ensures (Abs(), thrown) == OnExternalized(sha, freq, old(Abs()), lcd, body)
    {
      thrown := false;
      if state != LM_CATCHING_UP_STATE {
        var r := CloseLedgerIf(lcd, body);
        match r {
          case CLOSED => SetState(LM_SYNCED_STATE);
          case TOO_OLD =>
          case TOO_NEW => InitializeCatchup(lcd);
          case THROWN => thrown := true;
        }
      } else if catchupState == WAITING_FOR_CLOSING_LEDGER {
        thrown := FinalizeCatchup(lcd, body);
      } else {
        ContinueCatchup(lcd);
      }
    }

    // ----- The catchup work -----

    /** applyBuckets, then historyCaughtup with APPLIED_BUCKETS. */
    method AppliedBuckets(h: Closed) returns (thrown: bool)
      requires Valid() && work.Some? && work.value.phase == PREPARING
      modifies this`lcl
      ensures (Abs(), thrown) == OnWork(sha, old(Abs()), work.value, BucketsApplied(h))
    {
      if h.header.ledgerSeq < lcl.header.ledgerSeq {
        return true;
      }
      assert catchupState == APPLYING_HISTORY;
      lcl := h;
      return false;
    }

    /** ApplyLedgerChainWork's onReset. */
    method ResetReplay()
      requires work.Some?
      modifies this`work
      ensures work == Some(old(work).value.(phase := REPLAYING, lastApplied := lcl))
    {
      work := Some(work.value.(phase := REPLAYING, lastApplied := lcl));
    }

    /** applyHistoryOfSingleLedger. */
    method ApplyHistoryOfSingleLedger(h: Closed, closes: bool, body: Body) returns (failed: bool)
      requires work.Some?
      modifies this`lcl, this`work
      ensures failed <==>
              !Knits(old(lcl), h) && !(Closable(old(lcl), h, closes) && Next(sha, old(lcl), body).hash == h.hash)
      ensures lcl == if !Knits(old(lcl), h) && Closable(old(lcl), h, closes) then Next(sha, old(lcl), body)
              else old(lcl)
      ensures work == if failed || Knits(old(lcl), h) then old(work) else Some(old(work).value.(lastApplied := h))
    {
      if h.header.ledgerSeq + 1 < lcl.header.ledgerSeq {
        return false;
      }
      if h.header.ledgerSeq + 1 == lcl.header.ledgerSeq {
        return h.hash != lcl.header.previousLedgerHash;
      }
      if h.header.ledgerSeq == lcl.header.ledgerSeq {
        return h.hash != lcl.hash;
      }
      if h.header.ledgerSeq != lcl.header.ledgerSeq + 1 {
        return true;
      }
      if h.header.previousLedgerHash != lcl.hash {
        return true;
      }
      if !closes {
        return true;
      }
      var thrown := CloseLedger(h.header.previousLedgerHash, body);
      if lcl.hash != h.hash {
        return true;
      }
      work := Some(work.value.(lastApplied := h));
      return false;
    }

    /** ApplyLedgerChainWork's onSuccess. */
    method ReplaySucceeded()
      requires work.Some? && work.value.phase == REPLAYING
      modifies this`work
      ensures Abs() == Replayed(old(Abs()), old(work).value)
    {
      if lcl.header.ledgerSeq == work.value.toLedger {
        work := Some(work.value.(phase := REPLAYED));
      }
    }

    /** ApplyLedgerChainWork's onRun, on a header. */
    method RunOnHeader(h: Closed, closes: bool, body: Body)
      requires work.Some? && work.value.phase == REPLAYING
      modifies this`lcl, this`work
      ensures Abs() == OnHeader(sha, old(Abs()), old(work).value, h, closes, body)
    {
      var failed := ApplyHistoryOfSingleLedger(h, closes, body);
      if failed {
        work := Some(work.value.(phase := FAILED));
      } else {
        ReplaySucceeded();
      }
    }

    /** historyCaughtup with an error. */
    method CatchupFailed()
      requires Valid() && work.Some?
      modifies this
      ensures Abs() == OnWork(sha, old(Abs()), old(work).value, WorkFailed).0
    {
      assert catchupState == APPLYING_HISTORY;
      SetState(LM_BOOTING_STATE);
      work := None;
      syncingLedgers := [];
    }

    /** historyCaughtup with APPLIED_TRANSACTIONS and then with FINISHED. Its
        comparison of whole headers rests on the hash being injective. */
    method CatchupFinished()
      requires V.Injective(sha) && Valid() && work.Some? && work.value.phase == REPLAYED
      modifies this
      ensures Abs() == OnWork(sha, old(Abs()), old(work).value, WorkFinished).0
    {
      assert catchupState == APPLYING_HISTORY;
      var lastClosed := work.value.lastApplied;
      assert lastClosed.hash == lcl.hash;
      LastAppliedIsLCL(sha, Abs());
      assert lastClosed.header == lcl.header;
      work := None;
      SetCatchupState(APPLYING_BUFFERED_LEDGERS);
      ApplyBufferedLedgers();
    }

    method ApplyBufferedLedgers()
      requires catchupState == APPLYING_BUFFERED_LEDGERS && state == LM_CATCHING_UP_STATE
      modifies this`posted, this`state, this`catchupState
      ensures Abs() == Buffered(old(Abs()))
    {
      assert catchupState == APPLYING_BUFFERED_LEDGERS;
      if syncingLedgers == [] {
        posted := false;
        SetCatchupState(WAITING_FOR_CLOSING_LEDGER);
        return;
      }
      posted := true;
    }

    /** The callback that applyBufferedLedgers posts. */
    method RunPosted(body: Body) returns (thrown: bool)
      requires Valid() && posted
      modifies this
      ensures (Abs(), thrown) == OnPosted(sha, old(Abs()), body)
    {
      var lcd := syncingLedgers[0];
      syncingLedgers := syncingLedgers[1..];
      assert lcd.ledgerSeq == lcl.header.ledgerSeq + 1;
      thrown := CloseLedger(lcd.previousLedgerHash, body);
      if !thrown {
        ApplyBufferedLedgers();
      }
    }

    // ----- Any run -----

    method HandleWork(e: Event) returns (thrown: bool)
      requires V.Injective(sha) && Valid() && work.Some? && !e.Externalized? && !e.PostedRun?
      modifies this
      ensures (Abs(), thrown) == OnWork(sha, old(Abs()), old(work).value, e)
    {
      thrown := false;
      var phase := work.value.phase;
      match e {
        case BucketsApplied(h) =>
          if phase == PREPARING {
            thrown := AppliedBuckets(h);
          }
        case ReplayStarted =>
          if phase == PREPARING {
            ResetReplay();
          }
        case HeaderReplayed(h, closes, body) =>
          if phase == REPLAYING {
            RunOnHeader(h, closes, body);
          }
        case FileEnded =>
          if phase == REPLAYING {
            ReplaySucceeded();
          }
        case Retried =>
          if phase == FAILED && work.value.retries < RETRY_A_FEW {
            ResetReplay();
            work := Some(work.value.(retries := work.value.retries + 1));
          }
        case WorkFailed => CatchupFailed();
        case WorkFinished =>
          if phase == REPLAYED {
            CatchupFinished();
          }
      }
    }

    method Handle(e: Event) returns (thrown: bool)
      requires V.Injective(sha) && Valid() && EventOk(sha, work, e)
      modifies this
      ensures (Abs(), thrown) == Step(sha, freq, old(Abs()), e)
      ensures !thrown ==> Valid()
    {
      StepOkUnless(sha, freq, Abs(), e);
      if e.Externalized? {
        thrown := ValueExternalized(e.lcd, e.body);
      } else if e.PostedRun? {
        thrown := false;
        if posted {
          thrown := RunPosted(e.body);
        }
      } else if work.Some? {
        thrown := HandleWork(e);
      } else {
        thrown := false;
      }
    }
  }

  lemma {:induction false} StepOkUnless(sha: Header -> Hash, freq: nat, n: Node, e: Event)
    requires freq > 0 && Ok(sha, n) && EventOk(sha, n.work, e)
    ensures !Step(sha, freq, n, e).1 ==> Ok(sha, Step(sha, freq, n, e).0)
  {
    if !Step(sha, freq, n, e).1 {
      StepOk(sha, freq, n, e);
    }
  }

  /** Every run of the object is a run of states: no assert fails on the way, and
      it stops only where an exception escapes, or before a header that was not
      verified. */
  method HandleAll(m: Manager, es: seq<Event>) returns (handled: nat, ghost ns: seq<Node>)
    requires V.Injective(m.sha) && m.Valid() && m.Abs() == Booted(m.lcl)
    modifies m
    ensures handled <= |es| && Run(m.sha, m.freq, ns, es[..handled]) && ns[0] == old(m.Abs())
    ensures handled < |es| && EventOk(m.sha, ns[handled].work, es[handled]) ==>
              Step(m.sha, m.freq, ns[handled], es[handled]) == (m.Abs(), true)
    ensures handled == |es| || !EventOk(m.sha, ns[handled].work, es[handled]) ==> m.Abs() == ns[handled]
  {
    ns := [m.Abs()];
    handled := 0;
    while handled < |es| && EventOk(m.sha, m.work, es[handled])
      invariant handled <= |es| && m.Valid()
      invariant Run(m.sha, m.freq, ns, es[..handled]) && ns[0] == old(m.Abs()) && ns[handled] == m.Abs()
    {
      var thrown := m.Handle(es[handled]);
      if thrown {
        return;
      }
      ExtendRun(m.sha, m.freq, ns, es, handled, m.Abs());
      ns := ns + [m.Abs()];
      handled := handled + 1;
    }
  }

  lemma {:induction false} ExtendRun(sha: Header -> Hash, freq: nat, ns: seq<Node>, es: seq<Event>, t: nat, n: Node)
    requires freq > 0 && t < |es| && Run(sha, freq, ns, es[..t])
    requires EventOk(sha, ns[t].work, es[t]) && Step(sha, freq, ns[t], es[t]) == (n, false)
    ensures Run(sha, freq, ns + [n], es[..t + 1])
  {
    var ns', es' := ns + [n], es[..t + 1];
    forall i | 0 <= i < |es'|
      ensures EventOk(sha, ns'[i].work, es'[i]) && Step(sha, freq, ns'[i], es'[i]) == (ns'[i + 1], false)
    {
      assert i < t ==> es[..t][i] == es'[i] && ns'[i] == ns[i] && ns'[i + 1] == ns[i + 1];
    }
  }
}
