/** Closing ledgers (src/ledger/LedgerManagerImpl.cpp): one transaction per
    ledger is applied, sealed, handed to the bucket list as live and dead
    entries, and committed to the store. After every ledger the store and the
    bucket list say the same. */
module LedgerClose {
  import opened BucketFile
  import opened LedgerTypes
  import T = TxnStack
  import opened BulkApply
  import opened LedgerTxn
  import opened LedgerChanges
  import B = BucketList
  import R = BucketListRuns
  import S = Restart
  import A = ApplyBuckets

  type Batch = Bucket<LedgerKey, LedgerEntry>

  // ----- A sealed transaction as a batch -----

  function BatchOf(d: Changes): (b: Batch) {
    map k | k in d :: if d[k].Some? then Live(d[k].value) else Dead
  }

  lemma {:induction false} BatchApplies(m: T.Entries, d: Changes)
    ensures R.ApplyBatch(m, BatchOf(d)) == Overlay(m, d)
  {
  }

  /** The batch as the stack of maps has it: what was touched is live, what the store
      has and the transaction has not is dead. */
  function BatchOfFrame(below: T.Entries, f: T.Frame): (b: Batch) {
    (map k | k in f.touched && k in f.view :: Live(f.view[k])) + (map k | k in below && k !in f.view :: Dead)
  }

  lemma {:induction false} FrameBatchKey(below: T.Entries, t: Txn, k: LedgerKey)
    requires TxnOk(below, t) && t.exact
    ensures R.Look(BatchOf(t.entry), k) == R.Look(BatchOfFrame(below, FrameOf(below, t)), k)
  {
  }

  lemma {:induction false} FrameBatch(below: T.Entries, t: Txn)
    requires TxnOk(below, t) && t.exact
    ensures BatchOf(t.entry) == BatchOfFrame(below, FrameOf(below, t))
  {
    forall k
      ensures R.Look(BatchOf(t.entry), k) == R.Look(BatchOfFrame(below, FrameOf(below, t)), k)
    {
      FrameBatchKey(below, t, k);
    }
    A.SameBucket(BatchOf(t.entry), BatchOfFrame(below, FrameOf(below, t)));
  }

  lemma {:induction false} SealedBatch(below: T.Entries, t: Txn)
    requires TxnOk(below, t) && t.exact
    ensures BatchOf(SealedTxn(t).entry) == BatchOfFrame(below, T.Sealed(FrameOf(below, t)))
  {
    SealEntry(below, t);
    FrameBatch(below, SealedTxn(t));
  }

  /** The file made of a transaction's live and dead entries denotes its batch. */
  method FreshBatch(live: seq<LedgerEntry>, dead: seq<LedgerKey>, ghost d: Changes) returns (b: Batch)
    requires LiveOf(d, live) && DeadOf(d, dead)
    ensures b == BatchOf(d)
  {
    KeyLessTotal();
    var pairs := seq(|live|, i requires 0 <= i < |live| => (KeyOf(live[i]), live[i]));
    var file := Fresh(KeyLess, pairs, dead);
    b := Contents(file);
    forall k | k in d
      ensures k in b
    {
      if d[k].Some? {
        var i :| 0 <= i < |live| && live[i] == d[k].value;
        assert pairs[i] in pairs;
      }
    }
    forall k | k in b
      ensures k in d && b[k] == BatchOf(d)[k]
    {
      if k !in dead {
        var i :| 0 <= i < |pairs| && pairs[i] == (k, b[k].value);
        assert pairs[i] == (KeyOf(live[i]), live[i]);
      }
    }
  }

  // ----- What applying transactions may do -----

  /** Transactions work on the ledger's own transaction, number 1, and on
      children of it; they do not end number 1, and no header they write has
      another ledger number. */
  predicate Applies(calls: seq<T.Call>, ledgerSeq: nat) {
    forall i :: 0 <= i < |calls| ==> AppliesCall(calls[i], ledgerSeq)
  }

  predicate AppliesCall(c: T.Call, ledgerSeq: nat) {
    && c.at >= 1
    && (c.at == 1 ==> !c.op.Commit? && !c.op.Rollback?)
    && (c.op.AssignHeader? || c.op.UnsealHeader? ==> c.op.header.ledgerSeq == ledgerSeq)
  }

  predicate Closing(s: T.Stack, store: T.Entries, header: T.Header, ledgerSeq: nat) {
    s.store == store && s.header == header && s.frames != [] && s.frames[0].stamps && AllAt(s.frames, ledgerSeq)
  }

  lemma {:induction false} EditKeepsHeader(f: T.Frame, op: T.Op)
    ensures T.Edited(f, op).0.header == f.header && T.Edited(f, op).0.stamps == f.stamps
  {
  }

  lemma {:induction false} ReturnHeader(f: T.Frame, op: T.Op)
    ensures T.Returned(f, op).0.header == f.header ||
            ((op.AssignHeader? || op.UnsealHeader?) && T.Returned(f, op).0.header == op.header)
    ensures T.Returned(f, op).0.stamps == f.stamps
  {
  }

  predicate AllAt(fs: seq<T.Frame>, ledgerSeq: nat) {
    forall i :: 0 <= i < |fs| ==> fs[i].header.ledgerSeq == ledgerSeq
  }

  lemma {:induction false} CommitKeepsHeader(s: T.Stack, ledgerSeq: nat)
    requires |s.frames| >= 2 && AllAt(s.frames, ledgerSeq)
    ensures AllAt(T.Committed(s).frames, ledgerSeq) && T.Committed(s).frames[0].stamps == s.frames[0].stamps
  {
  }

  lemma {:induction false} WithFrameCloses(s: T.Stack, at: nat, r: (T.Frame, T.Result), ledgerSeq: nat)
    requires AllAt(s.frames, ledgerSeq) && 0 < at <= |s.frames| && r.0.header.ledgerSeq == ledgerSeq
             && r.0.stamps == s.frames[at - 1].stamps
    ensures AllAt(T.WithFrame(s, at, r).0.frames, ledgerSeq)
            && T.WithFrame(s, at, r).0.frames[0].stamps == s.frames[0].stamps
  {
  }

  lemma {:induction false} CommitCloses(s: T.Stack, c: T.Call, store: T.Entries, header: T.Header, ledgerSeq: nat)
    requires Closing(s, store, header, ledgerSeq) && AppliesCall(c, ledgerSeq) && c.op.Commit?
    ensures Closing(T.Step(s, c.at, c.op).0, store, header, ledgerSeq)
  {
    if c.at == |s.frames| {
      CommitKeepsHeader(s, ledgerSeq);
    }
  }

  lemma {:induction false} ReturnCloses(s: T.Stack, c: T.Call, store: T.Entries, header: T.Header, ledgerSeq: nat)
    requires Closing(s, store, header, ledgerSeq) && AppliesCall(c, ledgerSeq) && IsReturn(c.op)
    ensures Closing(T.Step(s, c.at, c.op).0, store, header, ledgerSeq)
  {
    if c.at <= |s.frames| {
      ReturnHeader(s.frames[c.at - 1], c.op);
      WithFrameCloses(s, c.at, T.Returned(s.frames[c.at - 1], c.op), ledgerSeq);
    }
  }

  lemma {:induction false} EditCloses(s: T.Stack, c: T.Call, store: T.Entries, header: T.Header, ledgerSeq: nat)
    requires Closing(s, store, header, ledgerSeq) && AppliesCall(c, ledgerSeq) && IsEdit(c.op)
    ensures Closing(T.Step(s, c.at, c.op).0, store, header, ledgerSeq)
  {
    if c.at <= |s.frames| {
      EditKeepsHeader(s.frames[c.at - 1], c.op);
      WithFrameCloses(s, c.at, T.Edited(s.frames[c.at - 1], c.op), ledgerSeq);
    }
  }

  lemma {:induction false} OtherCloses(s: T.Stack, c: T.Call, store: T.Entries, header: T.Header, ledgerSeq: nat)
    requires Closing(s, store, header, ledgerSeq) && AppliesCall(c, ledgerSeq) && !c.op.Commit? && !IsReturn(c.op)
             && !IsEdit(c.op)
    ensures Closing(T.Step(s, c.at, c.op).0, store, header, ledgerSeq)
  {
    if c.at <= |s.frames| {
      WithFrameCloses(s, c.at, (T.Sealed(s.frames[c.at - 1]), T.Ok(None)), ledgerSeq);
    }
  }

  lemma {:induction false} StepCloses(s: T.Stack, c: T.Call, store: T.Entries, header: T.Header, ledgerSeq: nat)
    requires Closing(s, store, header, ledgerSeq) && AppliesCall(c, ledgerSeq)
    ensures Closing(T.Step(s, c.at, c.op).0, store, header, ledgerSeq)
  {
    if c.op.Commit? {
      CommitCloses(s, c, store, header, ledgerSeq);
    } else if IsReturn(c.op) {
      ReturnCloses(s, c, store, header, ledgerSeq);
    } else if IsEdit(c.op) {
      EditCloses(s, c, store, header, ledgerSeq);
    } else {
      OtherCloses(s, c, store, header, ledgerSeq);
    }
  }

  lemma {:induction false} RunCloses(s: T.Stack, calls: seq<T.Call>, store: T.Entries, header: T.Header, ledgerSeq: nat)
    requires Closing(s, store, header, ledgerSeq) && Applies(calls, ledgerSeq)
    ensures Closing(T.Run(s, calls).0, store, header, ledgerSeq)
  {
    if calls != [] {
      var rest := calls[..|calls| - 1];
      assert forall i :: 0 <= i < |rest| ==> rest[i] == calls[i];
      RunCloses(s, rest, store, header, ledgerSeq);
      StepCloses(T.Run(s, rest).0, calls[|calls| - 1], store, header, ledgerSeq);
    }
  }

  /** When the ledger can be closed: its transaction has no child, nothing is
      handed out or sealed, and nothing was erased blindly. */
  predicate Closable(s: T.Stack) {
    |s.frames| == 1 && !s.frames[0].isSealed && !s.frames[0].headerActive && s.frames[0].exact
  }

  // ----- Closing a ledger -----

  /** Level 0 never has a merge pending between ledgers. */
  lemma {:induction false} LevelZeroSettled(levels: seq<B.Level<LedgerKey, LedgerEntry>>, hist: seq<Batch>)
    requires |levels| >= 1 && S.Alike(B.Run(|levels|, hist), levels)
    ensures !levels[0].next.IsMerging()
  {
    assert B.Run(|levels|, hist)[0].next.Clear?;
    assert S.AlikeLevel(B.Run(|levels|, hist)[0], levels[0]);
  }

  /** Between ledgers: the store and the bucket list hold the batches closed so
      far, and the header has the number of the last one. A merge that is pending
      may have been started anew. */
  ghost predicate InStep(l: LedgerTxns, list: B.List<LedgerKey, LedgerEntry>, hist: seq<Batch>)
    reads l, list
  {
    && l.Valid() && l.txns == [] && l.header.ledgerSeq == |hist| && l.store == R.ApplyAll(hist)
    && |list.levels| >= 1 && S.Alike(B.Run(|list.levels|, hist), list.levels)
    && A.StampedHist(hist)
  }

  function Started(s: T.Stack, h: T.Header, stamps: bool): (r: T.Stack) {
    s.(frames := [T.Child(s.store, h, stamps)])
  }

  lemma {:induction false} OpenSteps(s: T.Stack, h: T.Header, stamps: bool)
    requires s.frames == []
    ensures var one := T.Step(s, 0, T.Op.Open(stamps)).0;
            var two := T.Step(one, 1, T.Op.LoadHeader).0;
            var three := T.Step(two, 1, T.Op.AssignHeader(h)).0;
            T.Step(three, 1, T.Op.DeactivateHeader).0 == Started(s, h, stamps)
  {
    var one := T.Step(s, 0, T.Op.Open(stamps)).0;
    assert one.frames == [T.Child(s.store, s.header, stamps)];
    var two := T.Step(one, 1, T.Op.LoadHeader).0;
    assert two.frames == [one.frames[0].(headerActive := true)];
    var three := T.Step(two, 1, T.Op.AssignHeader(h)).0;
    assert three.frames == [two.frames[0].(header := h)];
  }

  /** A transaction is opened and its header moved on. */
  method OpenLedger(l: LedgerTxns, next: T.Header, stamps: bool)
    requires l.Valid() && l.txns == []
    modifies l
    ensures l.Valid() && l.Abs() == Started(old(l.Abs()), next, stamps)
  {
    OpenSteps(l.Abs(), next, stamps);
    var r := l.Perform(0, T.Op.Open(stamps));
    r := l.Perform(1, T.Op.LoadHeader);
    r := l.Perform(1, T.Op.AssignHeader(next));
    r := l.Perform(1, T.Op.DeactivateHeader);
  }

  /** Giving up: the transaction's destructor rolls it back. */
  method Abandon(l: LedgerTxns)
    requires l.Valid() && l.txns != []
    modifies l
    ensures l.Valid() && l.txns == [] && l.store == old(l.store) && l.header == old(l.header)
  {
    ghost var s := l.Abs();
    var r := l.Perform(1, T.Op.Rollback);
    assert l.Abs() == s.(frames := []);
    assert |l.txns| == |l.Abs().frames|;
  }

  /** The number of the ledger is read from the transaction's header. */
  method LedgerSeq(l: LedgerTxns) returns (r: T.Result, ledgerSeq: nat)
    requires l.Valid() && l.txns != []
    modifies l
    ensures l.Valid() && l.Abs() == old(l.Abs())
    ensures r.Ok? <==> |l.txns| == 1 && !l.txns[0].isSealed && !l.txns[0].headerActive
    ensures r.Ok? ==> ledgerSeq == l.txns[0].header.ledgerSeq
  {
    ghost var s := l.Abs();
    FrameAt(l.store, l.txns, 0);
    r := l.Perform(1, T.Op.LoadHeader);
    ledgerSeq := 0;
    if r.Ok? {
      FrameAt(l.store, l.txns, 0);
      ledgerSeq := l.txns[0].header.ledgerSeq;
      var r' := l.Perform(1, T.Op.DeactivateHeader);
      assert l.Abs().frames == s.frames;
      FrameAt(l.store, l.txns, 0);
    } else {
      FrameAt(l.store, l.txns, 0);
    }
  }

  /** The sealed transaction's entries become a bucket. */
  method TakeBatch(l: LedgerTxns) returns (ok: bool, b: Batch)
    requires l.Valid() && |l.txns| == 1
    modifies l
    ensures l.Valid() && |l.txns| == 1 && l.store == old(l.store) && l.header == old(l.header)
    ensures ok ==> l.txns[0] == SealedTxn(old(l.txns)[0])
    ensures ok <==> old(l.txns)[0].exact
    ensures ok ==> b == BatchOf(l.txns[0].entry)
  {
    var r, live := GetLiveEntries(l, 1);
    assert l.txns[0] == SealedTxn(old(l.txns)[0]) && l.txns[0].exact == old(l.txns)[0].exact;
    var r', dead := GetDeadEntries(l, 1);
    b := map[];
    ok := r'.Ok?;
    if ok {
      b := FreshBatch(live, dead, l.txns[0].entry);
    }
  }

  /** The header gets its last changes and the transaction is committed. */
  method FinishLedger(l: LedgerTxns, final: T.Header)
    requires l.Valid() && |l.txns| == 1 && l.txns[0].isSealed
    modifies l
    ensures l.Valid() && l.txns == [] && l.header == final
    ensures l.store == Overlay(old(l.store), old(l.txns)[0].entry)
  {
    FrameAt(l.store, l.txns, 0);
    assert l.txns[..0] == [];
    var r := l.Perform(1, T.Op.UnsealHeader(final));
    assert |l.txns| == |l.Abs().frames| == 1;
    r := l.Perform(1, T.Op.Commit);
    assert |l.txns| == |l.Abs().frames| == 0;
  }

  /** Sealing leaves all entries with the number of the ledger. */
  predicate Stamping(f: T.Frame, ledgerSeq: nat) {
    f.stamps || forall k :: k in f.touched && k in f.view ==> f.view[k].lastModified == ledgerSeq
  }

  /** ledgerClosed and the commit after it. The batch is handed over exactly when
      the transaction is closable; otherwise nothing changes anywhere. */
  method LedgerClosed(l: LedgerTxns, list: B.List<LedgerKey, LedgerEntry>, final: T.Header, ghost hist: seq<Batch>)
    returns (closed: bool, ghost batch: Batch)
    requires l.Valid() && l.txns != [] && l.store == R.ApplyAll(hist) && l.header.ledgerSeq == |hist|
    requires AllAt(l.Abs().frames, |hist| + 1) && Stamping(l.Abs().frames[0], |hist| + 1)
    requires |list.levels| >= 1 && S.Alike(B.Run(|list.levels|, hist), list.levels) && A.StampedHist(hist)
    requires final.ledgerSeq == |hist| + 1
    modifies l, list
    ensures closed <==> Closable(old(l.Abs()))
    ensures closed ==> l.store == T.Sealed(old(l.Abs()).frames[0]).view && l.header == final
    ensures closed ==> batch == BatchOfFrame(old(l.store), T.Sealed(old(l.Abs()).frames[0]))
    ensures |list.levels| == |old(list.levels)|
    ensures InStep(l, list, if closed then hist + [batch] else hist)
  {
    batch := map[];
    FrameAt(l.store, l.txns, 0);
    var r, ledgerSeq := LedgerSeq(l);
    FrameAt(l.store, l.txns, 0);
    if r.Failed? {
      Abandon(l);
      return false, batch;
    }
    ghost var before := l.txns[0];
    ChainAt(l.store, l.txns, 0);
    assert l.txns[..0] == [];
    var ok, b := TakeBatch(l);
    if !ok {
      Abandon(l);
      return false, batch;
    }
    batch := b;
    LevelZeroSettled(list.levels, hist);
    S.CloseTracks(|list.levels|, hist, list.levels, b);
    list.AddBatch(ledgerSeq, b);
    BatchApplies(l.store, l.txns[0].entry);
    OverlayStamp(l.store, before);
    SealedIsStamped(l.txns[0].entry, before, l.store, hist);
    SealedBatch(l.store, before);
    FinishLedger(l, final);
    assert (hist + [b])[..|hist|] == hist;
    return true, batch;
  }

  /** Every entry of the batch carries the number of its ledger. */
  lemma {:induction false} SealedIsStamped(d: Changes, t: Txn, below: T.Entries, hist: seq<Batch>)
    requires d == SealedTxn(t).entry && !t.isSealed && Stamping(FrameOf(below, t), |hist| + 1)
    requires t.header.ledgerSeq == |hist| + 1 && A.StampedHist(hist)
    ensures A.StampedHist(hist + [BatchOf(d)])
  {
    forall k | k in d && d[k].Some?
      ensures d[k].value.lastModified == |hist| + 1
    {
      assert k in LiveKeys(t.entry);
    }
  }

  /** Whether a ledger can be closed after these calls. */
  predicate CanClose(s: T.Stack, calls: seq<T.Call>, next: T.Header) {
    Closable(T.Run(Started(s, next, true), calls).0)
  }

  /** The batch and the next state, as far as calls on the stack of maps decide. */
  function ClosedAs(s: T.Stack, calls: seq<T.Call>, next: T.Header, final: T.Header): (r: (Batch, T.Stack))
    requires CanClose(s, calls, next)
  {
    var f := T.Sealed(T.Run(Started(s, next, true), calls).0.frames[0]);
    (BatchOfFrame(s.store, f), T.Stack(f.view, final, []))
  }

  /** One ledger: any transactions are applied and the ledger is closed. */
  method CloseLedger(l: LedgerTxns, list: B.List<LedgerKey, LedgerEntry>, calls: seq<T.Call>, next: T.Header,
                     final: T.Header, ghost hist: seq<Batch>)
    returns (closed: bool, ghost batch: Batch)
    requires InStep(l, list, hist) && Applies(calls, |hist| + 1)
    requires next.ledgerSeq == final.ledgerSeq == |hist| + 1
    modifies l, list
    ensures closed <==> CanClose(old(l.Abs()), calls, next)
    ensures closed ==> (batch, l.Abs()) == ClosedAs(old(l.Abs()), calls, next, final)
    ensures |list.levels| == |old(list.levels)|
    ensures InStep(l, list, if closed then hist + [batch] else hist)
  {
    OpenLedger(l, next, true);
    RunCloses(l.Abs(), calls, l.store, l.header, |hist| + 1);
    var results := l.RunCalls(calls);
    closed, batch := LedgerClosed(l, list, final, hist);
  }

  function Genesis(header: T.Header, root: LedgerEntry): (f: T.Frame) {
    T.Child(map[], header, false).(view := map[KeyOf(root) := root], touched := {KeyOf(root)})
  }

  lemma {:induction false} GenesisSteps(s: T.Stack, header: T.Header, root: LedgerEntry)
    requires s.frames == [] && s.store == map[]
    ensures var one := T.Step(Started(s, header, false), 1, T.Op.Create(root)).0;
            T.Step(one, 1, T.Op.Deactivate(KeyOf(root))).0 == s.(frames := [Genesis(header, root)])
  {
    var f := T.Child(map[], header, false);
    var one := T.Step(Started(s, header, false), 1, T.Op.Create(root)).0;
    var view := f.view[KeyOf(root) := root];
    assert one.frames == [f.(view := view, touched := f.touched + {KeyOf(root)}, active := map[KeyOf(root) := true])];
    var two := T.Step(one, 1, T.Op.Deactivate(KeyOf(root))).0;
    assert two.frames[0].active == map[] && two.frames[0].touched == {KeyOf(root)};
    assert two.frames == [Genesis(header, root)];
  }

  method OpenGenesis(l: LedgerTxns, genesis: T.Header, root: LedgerEntry)
    requires l.Valid() && l.txns == [] && l.store == map[]
    modifies l
    ensures l.Valid() && l.Abs() == old(l.Abs()).(frames := [Genesis(genesis, root)])
  {
    GenesisSteps(l.Abs(), genesis, root);
    OpenLedger(l, genesis, false);
    var r := l.Perform(1, T.Op.Create(root));
    r := l.Perform(1, T.Op.Deactivate(KeyOf(root)));
  }

  /** startNewLedger: the first ledger holds the root account alone. Its transaction
      does not stamp entries; the root entry brings its stamp along. */
  method StartNewLedger(l: LedgerTxns, list: B.List<LedgerKey, LedgerEntry>, genesis: T.Header, root: AccountID,
                        totalCoins: int)
    returns (ghost batch: Batch)
    requires InStep(l, list, []) && genesis.ledgerSeq == 1
    modifies l, list
    ensures |list.levels| == |old(list.levels)| && InStep(l, list, [batch])
    ensures l.store == map[AccountKey(root) := LedgerEntry(1, Account(root, totalCoins, Nothing))]
  {
    var rootEntry := LedgerEntry(1, Account(root, totalCoins, Nothing));
    OpenGenesis(l, genesis, rootEntry);
    assert |l.txns| == |l.Abs().frames|;
    var closed;
    closed, batch := LedgerClosed(l, list, genesis, []);
  }

  datatype Input = Input(calls: seq<T.Call>, body: nat)

  /** The batches that closing ledgers gives, until one cannot be closed. */
  function Closes(s: T.Stack, ledger: nat, inputs: seq<Input>): (bs: seq<Batch>)
    ensures |bs| <= |inputs|
    decreases |inputs|
  {
    if inputs == [] then []
    else
      var h := T.Header(ledger, inputs[0].body);
      if !CanClose(s, inputs[0].calls, h) then []
      else
        var r := ClosedAs(s, inputs[0].calls, h, h);
        [r.0] + Closes(r.1, ledger + 1, inputs[1..])
  }

  /** The inputs apply to ledgers from this number on. */
  predicate AllApply(inputs: seq<Input>, ledger: nat) {
    forall i :: 0 <= i < |inputs| ==> Applies(inputs[i].calls, ledger + i)
  }

  lemma {:induction false} ClosesStep(s: T.Stack, ledger: nat, inputs: seq<Input>)
    requires inputs != [] && AllApply(inputs, ledger)
    ensures var input, h := inputs[0], T.Header(ledger, inputs[0].body);
            && Applies(input.calls, ledger) && AllApply(inputs[1..], ledger + 1)
            && Closes(s, ledger, inputs) ==
               if !CanClose(s, input.calls, h) then []
               else var r := ClosedAs(s, input.calls, h, h); [r.0] + Closes(r.1, ledger + 1, inputs[1..])
  {
    forall i | 0 <= i < |inputs| - 1
      ensures Applies(inputs[1..][i].calls, ledger + 1 + i)
    {
      assert Applies(inputs[i + 1].calls, ledger + (i + 1));
    }
    assert Applies(inputs[0].calls, ledger + 0);
  }

  lemma {:induction false} OneThenRest(hist: seq<Batch>, batch: Batch, rest: seq<Batch>)
    ensures hist + [batch] + rest == hist + ([batch] + rest) && hist + [] == hist
  {
  }

  /** The next of several ledgers. */
  method CloseNext(l: LedgerTxns, list: B.List<LedgerKey, LedgerEntry>, inputs: seq<Input>, ghost hist: seq<Batch>)
    returns (closed: bool, ghost batch: Batch)
    requires InStep(l, list, hist) && inputs != [] && AllApply(inputs, |hist| + 1)
    modifies l, list
    ensures |list.levels| == |old(list.levels)| && InStep(l, list, if closed then hist + [batch] else hist)
    ensures AllApply(inputs[1..], |hist| + 2)
    ensures Closes(old(l.Abs()), |hist| + 1, inputs) ==
            if closed then [batch] + Closes(l.Abs(), |hist| + 2, inputs[1..]) else []
  {
    ClosesStep(l.Abs(), |hist| + 1, inputs);
    var h := T.Header(l.header.ledgerSeq + 1, inputs[0].body);
    closed, batch := CloseLedger(l, list, inputs[0].calls, h, h, hist);
  }

  /** Closing further ledgers. What is closed depends on the store, the header and
      the inputs only. A ledger that cannot be closed stops the node. */
  method CloseMore(l: LedgerTxns, list: B.List<LedgerKey, LedgerEntry>, inputs: seq<Input>, ghost hist: seq<Batch>)
    returns (ghost later: seq<Batch>)
    requires InStep(l, list, hist) && AllApply(inputs, |hist| + 1)
    modifies l, list
    ensures later == Closes(old(l.Abs()), |hist| + 1, inputs)
    ensures |list.levels| == |old(list.levels)| && InStep(l, list, hist + later)
    decreases |inputs|
  {
    later := [];
    OneThenRest(hist, map[], []);
    if inputs == [] {
      return;
    }
    var closed, batch := CloseNext(l, list, inputs, hist);
    if closed {
      ghost var rest := CloseMore(l, list, inputs[1..], hist + [batch]);
      OneThenRest(hist, batch, rest);
      later := [batch] + rest;
    }
  }

  lemma {:induction false} InStepFlat(levels: seq<B.Level<LedgerKey, LedgerEntry>>, hist: seq<Batch>)
    requires |levels| >= 1 && S.Alike(B.Run(|levels|, hist), levels)
    ensures R.FlatView(levels) == R.ApplyAll(hist)
  {
    R.FlatViewOfRun(|levels|, hist);
    S.AlikeFlatView(B.Run(|levels|, hist), levels);
  }

  /** Across every sequence of ledgers, from the first, the store equals the flat
      view of the bucket list. */
  method CloseLedgers(n: nat, root: AccountID, totalCoins: int, inputs: seq<Input>)
    returns (l: LedgerTxns, list: B.List<LedgerKey, LedgerEntry>, ghost hist: seq<Batch>)
    requires n >= 1
    requires AllApply(inputs, 2)
    ensures fresh(l) && fresh(list) && InStep(l, list, hist) && |list.levels| == n && 1 <= |hist| <= |inputs| + 1
    ensures l.store == R.FlatView(list.levels)
  {
    l := new LedgerTxns(map[], T.Header(0, 0));
    list := new B.List(n);
    ghost var first := StartNewLedger(l, list, T.Header(1, 0), root, totalCoins);
    ghost var later := CloseMore(l, list, inputs, [first]);
    hist := [first] + later;
    InStepFlat(list.levels, hist);
  }
}
