/** Nested ledger transactions over a cached store (src/ledger/LedgerTxn.cpp).
    Each transaction holds only its own changes; a key is looked up from the
    innermost outwards. The chain of transactions is a sequence, outermost
    first. */
module LedgerTxn {
  import opened BucketFile
  import opened LedgerTypes
  import opened TxnStack
  import opened BulkApply
  import opened OfferTable

  datatype Txn = Txn(
    entry: Changes,
    active: map<LedgerKey, bool>,
    headerActive: bool,
    header: Header,
    isSealed: bool,
    stamps: bool,
    exact: bool)

  // ----- The maps that a chain stands for -----

  function LiveKeys(d: Changes): (s: set<LedgerKey>) {
    set k | k in d && d[k].Some?
  }

  function FrameOf(below: Entries, t: Txn): (f: Frame) {
    Frame(Overlay(below, t.entry), LiveKeys(t.entry), t.active, t.headerActive, t.header, t.isSealed, t.stamps, t.exact)
  }

  function Flat(store: Entries, txns: seq<Txn>): (m: Entries) {
    if txns == [] then store else Overlay(Flat(store, txns[..|txns| - 1]), txns[|txns| - 1].entry)
  }

  function Frames(store: Entries, txns: seq<Txn>): (fs: seq<Frame>)
    ensures |fs| == |txns|
  {
    if txns == [] then []
    else Frames(store, txns[..|txns| - 1]) + [FrameOf(Flat(store, txns[..|txns| - 1]), txns[|txns| - 1])]
  }

  lemma {:induction false} FrameAt(store: Entries, txns: seq<Txn>, i: nat)
    requires i < |txns|
    ensures Frames(store, txns)[i] == FrameOf(Flat(store, txns[..i]), txns[i])
    ensures Frames(store, txns)[i].view == Flat(store, txns[..i + 1])
  {
    var init := txns[..|txns| - 1];
    if i < |init| {
      FrameAt(store, init, i);
      assert init[..i] == txns[..i] && init[..i + 1] == txns[..i + 1];
    } else {
      assert txns[..i + 1] == txns && init == txns[..i];
    }
  }

  lemma {:induction false} FramesPrefix(store: Entries, txns: seq<Txn>, i: nat)
    requires i <= |txns|
    ensures Frames(store, txns[..i]) == Frames(store, txns)[..i]
  {
    if i < |txns| {
      var init := txns[..|txns| - 1];
      FramesPrefix(store, init, i);
      assert init[..i] == txns[..i];
    } else {
      assert txns[..i] == txns;
    }
  }

  // ----- What every transaction keeps -----

  /** What holds of a transaction over the map below it. */
  ghost predicate TxnOk(below: Entries, t: Txn) {
    && (t.exact ==> Exact(below, t.entry))
    && (forall k :: k in t.entry && t.entry[k].Some? ==> KeyOf(t.entry[k].value) == k)
    && (forall k :: k in t.active ==> k in Overlay(below, t.entry))
    && (forall k :: k in t.active && t.active[k] ==> k in t.entry && t.entry[k].Some?)
    && (t.isSealed ==> t.active == map[] && !t.headerActive)
  }

  /** Nothing is handed out by a transaction that has a child. */
  predicate Quiet(t: Txn) {
    t.active == map[] && !t.headerActive && !t.isSealed
  }

  ghost predicate ChainOk(store: Entries, txns: seq<Txn>) {
    txns == [] ||
    (var init := txns[..|txns| - 1];
     && ChainOk(store, init)
     && (init != [] ==> Quiet(init[|init| - 1]))
     && TxnOk(Flat(store, init), txns[|txns| - 1]))
  }

  lemma {:induction false} ChainAt(store: Entries, txns: seq<Txn>, i: nat)
    requires ChainOk(store, txns) && i < |txns|
    ensures TxnOk(Flat(store, txns[..i]), txns[i])
    ensures i < |txns| - 1 ==> Quiet(txns[i])
  {
    var init := txns[..|txns| - 1];
    if i < |init| {
      ChainAt(store, init, i);
      assert init[..i] == txns[..i];
    }
  }

  lemma {:induction false} ChainPrefix(store: Entries, txns: seq<Txn>, i: nat)
    requires ChainOk(store, txns) && i <= |txns|
    ensures ChainOk(store, txns[..i])
  {
    if i < |txns| {
      var init := txns[..|txns| - 1];
      ChainPrefix(store, init, i);
      assert init[..i] == txns[..i];
    } else {
      assert txns[..i] == txns;
    }
  }

  /** Changing the innermost transaction changes the top map only. */
  lemma {:induction false} ReplaceTop(store: Entries, txns: seq<Txn>, t: Txn)
    requires ChainOk(store, txns) && txns != []
    requires TxnOk(Flat(store, txns[..|txns| - 1]), t)
    ensures var n := |txns|;
            && ChainOk(store, txns[n - 1 := t])
            && Frames(store, txns[n - 1 := t]) == Frames(store, txns)[n - 1 := FrameOf(Flat(store, txns[..n - 1]), t)]
  {
    var n := |txns|;
    assert txns[n - 1 := t][..n - 1] == txns[..n - 1];
  }

  lemma {:induction false} ReplaceLast(store: Entries, txns: seq<Txn>, txns': seq<Txn>)
    requires ChainOk(store, txns) && txns != [] && |txns'| == |txns| && txns'[..|txns| - 1] == txns[..|txns| - 1]
    requires TxnOk(Flat(store, txns[..|txns| - 1]), txns'[|txns| - 1])
    ensures ChainOk(store, txns')
    ensures Frames(store, txns') == Frames(store,
            txns)[|txns| - 1 := FrameOf(Flat(store, txns[..|txns| - 1]), txns'[|txns| - 1])]
    ensures Frames(store, txns)[|txns| - 1] == FrameOf(Flat(store, txns[..|txns| - 1]), txns[|txns| - 1])
  {
  }

  lemma {:induction false} PushChild(store: Entries, txns: seq<Txn>, t: Txn)
    requires ChainOk(store, txns) && (txns != [] ==> Quiet(txns[|txns| - 1]))
    requires TxnOk(Flat(store, txns), t)
    ensures ChainOk(store, txns + [t])
    ensures Frames(store, txns + [t]) == Frames(store, txns) + [FrameOf(Flat(store, txns), t)]
  {
    var more := txns + [t];
    assert more[..|more| - 1] == txns && more[|more| - 1] == t;
  }

  // ----- What each change of the innermost transaction does to its map -----

  lemma {:induction false} OverlayPut(below: Entries, d: Changes, k: LedgerKey, e: LedgerEntry)
    ensures Overlay(below, d[k := Some(e)]) == Overlay(below, d)[k := e]
    ensures LiveKeys(d[k := Some(e)]) == LiveKeys(d) + {k}
  {
  }

  /** An erased key is forgotten if it is not there below. */
  function Erased(below: Entries, d: Changes, k: LedgerKey): (r: Changes) {
    if k in below then d[k := None] else d - {k}
  }

  lemma {:induction false} OverlayErase(below: Entries, d: Changes, k: LedgerKey)
    ensures Overlay(below, Erased(below, d, k)) == Overlay(below, d) - {k}
    ensures Overlay(below, d[k := None]) == Overlay(below, d) - {k}
    ensures LiveKeys(Erased(below, d, k)) == LiveKeys(d[k := None]) == LiveKeys(d) - {k}
  {
  }

  lemma {:induction false} PutEntry(below: Entries, t: Txn, k: LedgerKey, e: LedgerEntry)
    requires TxnOk(below, t) && KeyOf(e) == k
    ensures var t' := t.(entry := t.entry[k := Some(e)]);
            && TxnOk(below, t')
            && FrameOf(below, t') == FrameOf(below, t).(view := Overlay(below, t.entry)[k := e],
              touched := LiveKeys(t.entry) + {k})
  {
    OverlayPut(below, t.entry, k, e);
  }

  lemma {:induction false} Activate(below: Entries, t: Txn, k: LedgerKey, writable: bool)
    requires TxnOk(below, t) && !t.isSealed && k in Overlay(below, t.entry)
    requires writable ==> k in t.entry && t.entry[k].Some?
    ensures TxnOk(below, t.(active := t.active[k := writable]))
  {
  }

  lemma {:induction false} EraseEntry(below: Entries, t: Txn, k: LedgerKey)
    requires TxnOk(below, t)
    ensures var t' := t.(entry := Erased(below, t.entry, k), active := t.active - {k});
            && TxnOk(below, t')
            && FrameOf(below, t') ==
               FrameOf(below, t).(view := Overlay(below, t.entry) - {k}, touched := LiveKeys(t.entry) - {k},
                 active := t.active - {k})
  {
    OverlayErase(below, t.entry, k);
  }

  lemma {:induction false} EraseBlindly(below: Entries, t: Txn, k: LedgerKey)
    requires TxnOk(below, t)
    ensures var t' := t.(entry := t.entry[k := None], active := t.active - {k}, exact := false);
            && TxnOk(below, t')
            && FrameOf(below, t') ==
               FrameOf(below, t).(view := Overlay(below, t.entry) - {k}, touched := LiveKeys(t.entry) - {k},
                                  active := t.active - {k}, exact := false)
  {
    OverlayErase(below, t.entry, k);
  }

  // ----- Sealing -----

  /** An entry that is held gets the ledger's number, if the transaction stamps. */
  function StampedChange(e: Option<LedgerEntry>, stamps: bool, ledgerSeq: nat): (r: Option<LedgerEntry>) {
    if stamps && e.Some? then Some(e.value.(lastModified := ledgerSeq)) else e
  }

  function StampedChanges(d: Changes, stamps: bool, ledgerSeq: nat): (r: Changes) {
    map k | k in d :: StampedChange(d[k], stamps, ledgerSeq)
  }

  function SealedTxn(t: Txn): (r: Txn) {
    if t.isSealed then t
    else t.(entry := StampedChanges(t.entry, t.stamps, t.header.ledgerSeq), active := map[], headerActive := false,
      isSealed := true)
  }

  lemma {:induction false} OverlayStamp(below: Entries, t: Txn)
    ensures Overlay(below, StampedChanges(t.entry, t.stamps, t.header.ledgerSeq)) == Stamped(FrameOf(below, t))
    ensures LiveKeys(StampedChanges(t.entry, t.stamps, t.header.ledgerSeq)) == LiveKeys(t.entry)
  {
  }

  lemma {:induction false} SealEntry(below: Entries, t: Txn)
    requires TxnOk(below, t)
    ensures TxnOk(below, SealedTxn(t))
    ensures FrameOf(below, SealedTxn(t)) == Sealed(FrameOf(below, t))
  {
    OverlayStamp(below, t);
  }

  // ----- Committing into a transaction -----

  function JoinedChanges(below: Entries, parent: Changes, child: Changes): (r: Changes) {
    map k | k in parent.Keys + child.Keys && (k in child && child[k].None? ==> k in below) ::
      if k in child then child[k] else parent[k]
  }

  lemma {:induction false} JoinOne(below: Entries, parent: Changes, child: Changes, taken: set<LedgerKey>, k: LedgerKey)
    requires k in child && k !in taken
    ensures var prior, next := JoinedChanges(below, parent, Restrict(child, taken)),
            JoinedChanges(below, parent, Restrict(child, taken + {k}));
            next == if child[k].Some? || k in below then prior[k := child[k]] else prior - {k}
  {
  }

  function JoinedTxn(below: Entries, parent: Txn, child: Txn): (r: Txn) {
    parent.(entry := JoinedChanges(below, parent.entry, child.entry), header := child.header, exact := parent.exact
      && child.exact)
  }

  lemma {:induction false} OverlayJoin(below: Entries, parent: Changes, child: Changes)
    ensures Overlay(below, JoinedChanges(below, parent, child)) == Overlay(Overlay(below, parent), child)
  {
  }

  lemma {:induction false} LiveJoin(below: Entries, parent: Changes, child: Changes)
    ensures LiveKeys(JoinedChanges(below, parent, child)) ==
            LiveKeys(child) + (set k | k in LiveKeys(parent) && k in Overlay(Overlay(below, parent), child))
  {
  }

  lemma {:induction false} ExactJoin(below: Entries, parent: Changes, child: Changes)
    requires Exact(below, parent)
    ensures Exact(below, JoinedChanges(below, parent, child))
  {
  }

  /** Committing gives the parent the child's map, and keeps exactness. */
  lemma {:induction false} JoinEntries(below: Entries, parent: Txn, child: Txn)
    requires TxnOk(below, parent) && Quiet(parent)
    requires TxnOk(Overlay(below, parent.entry), child)
    ensures TxnOk(below, JoinedTxn(below, parent, child))
    ensures FrameOf(below, JoinedTxn(below, parent, child)) ==
            Joined(FrameOf(below, parent), FrameOf(Overlay(below, parent.entry), child))
  {
    OverlayJoin(below, parent.entry, child.entry);
    LiveJoin(below, parent.entry, child.entry);
    if parent.exact {
      ExactJoin(below, parent.entry, child.entry);
    }
  }

  // ----- The steps of the stack of maps, from changes of one transaction -----

  ghost function Abstract(store: Entries, header: Header, txns: seq<Txn>): (s: Stack) {
    Stack(store, header, Frames(store, txns))
  }

  predicate IsEdit(op: Op) {
    op.Create? || op.CreateOrUpdateWithoutLoading? || op.Load? || op.LoadWithoutRecord? || op.Erase?
      || op.EraseWithoutLoading? || op.LoadHeader?
  }

  predicate IsReturn(op: Op) {
    op.Assign? || op.Deactivate? || op.AssignHeader? || op.DeactivateHeader? || op.UnsealHeader?
  }

  /** Only the innermost transaction changed, as the stack of maps demands. */
  ghost predicate TopEdited(store: Entries, txns: seq<Txn>, txns': seq<Txn>, op: Op, r: Result) {
    && txns != [] && |txns'| == |txns| && txns'[..|txns| - 1] == txns[..|txns| - 1]
    && var n, below := |txns|, Flat(store, txns[..|txns| - 1]);
       && TxnOk(below, txns'[n - 1])
       && (FrameOf(below, txns'[n - 1]), r) == Edited(FrameOf(below, txns[n - 1]), op)
  }

  lemma {:induction false} EditStep(store: Entries, header: Header, txns: seq<Txn>, txns': seq<Txn>, op: Op, r: Result)
    requires ChainOk(store, txns) && txns != [] && !txns[|txns| - 1].isSealed && IsEdit(op)
    requires TopEdited(store, txns, txns', op, r)
    ensures ChainOk(store, txns')
    ensures (Abstract(store, header, txns'), r) == Step(Abstract(store, header, txns), |txns|, op)
  {
    ReplaceLast(store, txns, txns');
  }

  ghost predicate TopReturned(store: Entries, txns: seq<Txn>, txns': seq<Txn>, op: Op, r: Result) {
    && txns != [] && |txns'| == |txns| && txns'[..|txns| - 1] == txns[..|txns| - 1]
    && var n, below := |txns|, Flat(store, txns[..|txns| - 1]);
       && TxnOk(below, txns'[n - 1])
       && (FrameOf(below, txns'[n - 1]), r) == Returned(FrameOf(below, txns[n - 1]), op)
  }

  lemma {:induction false} ReturnStep(store: Entries, header: Header, txns: seq<Txn>, txns': seq<Txn>, op: Op,
                                      r: Result)
    requires ChainOk(store, txns) && txns != [] && IsReturn(op)
    requires TopReturned(store, txns, txns', op, r)
    ensures ChainOk(store, txns')
    ensures (Abstract(store, header, txns'), r) == Step(Abstract(store, header, txns), |txns|, op)
  {
    ReplaceLast(store, txns, txns');
  }

  lemma {:induction false} SameFrame(s: Stack, at: nat, r: Result)
    requires 0 < at <= |s.frames|
    ensures WithFrame(s, at, (s.frames[at - 1], r)) == (s, r)
  {
    assert s.frames[at - 1 := s.frames[at - 1]] == s.frames;
  }

  /** The operation changed nothing. */
  lemma {:induction false} UnchangedReturn(store: Entries, header: Header, txns: seq<Txn>, at: nat, op: Op, r: Result)
    requires 0 < at <= |txns| && IsReturn(op)
    requires var f := FrameOf(Flat(store, txns[..at - 1]), txns[at - 1]); (f, r) == Returned(f, op)
    ensures (Abstract(store, header, txns), r) == Step(Abstract(store, header, txns), at, op)
  {
    FrameAt(store, txns, at - 1);
    SameFrame(Abstract(store, header, txns), at, r);
  }

  lemma {:induction false} OpenAtRoot(store: Entries, header: Header, stamps: bool)
    ensures var txns' := [NewTxn(header, stamps)];
            && ChainOk(store, txns')
            && (Abstract(store, header, txns'), Ok(None)) == Step(Abstract(store, header, []), 0, Op.Open(stamps))
  {
    var child := NewTxn(header, stamps);
    NewFrame(store, header, stamps);
    assert [child][..0] == [];
    assert Frames(store, [child]) == [FrameOf(store, child)];
  }

  lemma {:induction false} NewFrame(below: Entries, header: Header, stamps: bool)
    ensures FrameOf(below, NewTxn(header, stamps)) == Child(below, header, stamps)
    ensures TxnOk(below, NewTxn(header, stamps))
  {
    EmptyOverlay(below);
  }

  function Hushed(t: Txn): (r: Txn) {
    t.(active := map[], headerActive := false)
  }

  lemma {:induction false} OpenFrames(store: Entries, txns: seq<Txn>, stamps: bool)
    requires ChainOk(store, txns) && txns != [] && !txns[|txns| - 1].isSealed
    ensures var n, t, fs := |txns|, txns[|txns| - 1], Frames(store, txns);
            var txns' := txns[n - 1 := Hushed(t)] + [NewTxn(t.header, stamps)];
            var f := fs[n - 1];
            && ChainOk(store, txns')
            && Frames(store, txns') == fs[n - 1 := f.(active := map[], headerActive := false)] +
              [Child(f.view, f.header, stamps)]
  {
    var n, t := |txns|, txns[|txns| - 1];
    var hushed := txns[n - 1 := Hushed(t)];
    ReplaceTop(store, txns, Hushed(t));
    assert hushed[..n - 1] == txns[..n - 1];
    assert Flat(store, hushed) == Flat(store, txns);
    NewFrame(Flat(store, txns), t.header, stamps);
    PushChild(store, hushed, NewTxn(t.header, stamps));
  }

  lemma {:induction false} OpenStep(store: Entries, header: Header, txns: seq<Txn>, stamps: bool)
    requires ChainOk(store, txns) && txns != [] && !txns[|txns| - 1].isSealed
    ensures var txns' := txns[|txns| - 1 := Hushed(txns[|txns| - 1])] + [NewTxn(txns[|txns| - 1].header, stamps)];
            && ChainOk(store, txns')
            && (Abstract(store, header, txns'), Ok(None))
              == Step(Abstract(store, header, txns), |txns|, Op.Open(stamps))
  {
    OpenFrames(store, txns, stamps);
  }

  lemma {:induction false} EmptyOverlay(below: Entries)
    ensures Overlay(below, map[]) == below
    ensures LiveKeys(map[]) == {}
  {
  }

  function NewTxn(header: Header, stamps: bool): (t: Txn) {
    Txn(map[], map[], false, header, false, stamps, true)
  }

  lemma {:induction false} RollbackStep(store: Entries, header: Header, txns: seq<Txn>, at: nat)
    requires ChainOk(store, txns) && 0 < at <= |txns|
    ensures ChainOk(store, txns[..at - 1])
    ensures (Abstract(store, header, txns[..at - 1]), Ok(None)) == Step(Abstract(store, header, txns), at, Op.Rollback)
  {
    ChainPrefix(store, txns, at - 1);
    FramesPrefix(store, txns, at - 1);
  }

  lemma {:induction false} SealStep(store: Entries, header: Header, txns: seq<Txn>, needExact: bool)
    requires ChainOk(store, txns) && txns != [] && (needExact ==> txns[|txns| - 1].exact)
    ensures var n := |txns|;
            var txns' := txns[n - 1 := SealedTxn(txns[n - 1])];
            && ChainOk(store, txns')
            && (Abstract(store, header, txns'), Ok(None)) == Step(Abstract(store, header, txns), n, Op.Seal(needExact))
  {
    var n := |txns|;
    SealFrames(store, txns);
    assert Frames(store, txns)[n - 1].exact == txns[n - 1].exact;
  }

  lemma {:induction false} SealFrames(store: Entries, txns: seq<Txn>)
    requires ChainOk(store, txns) && txns != []
    ensures var n := |txns|;
            var txns' := txns[n - 1 := SealedTxn(txns[n - 1])];
            && ChainOk(store, txns')
            && Frames(store, txns') == Frames(store, txns)[n - 1 := Sealed(Frames(store, txns)[n - 1])]
  {
    var n := |txns|;
    SealEntry(Flat(store, txns[..n - 1]), txns[n - 1]);
    var txns' := txns[n - 1 := SealedTxn(txns[n - 1])];
    assert txns'[..n - 1] == txns[..n - 1];
    ReplaceLast(store, txns, txns');
  }

  lemma {:induction false} CommitFrames(store: Entries, txns: seq<Txn>)
    requires ChainOk(store, txns) && |txns| >= 2
    ensures var n, fs := |txns|, Frames(store, txns);
            var txns' := txns[..n - 2] + [JoinedTxn(Flat(store, txns[..n - 2]), txns[n - 2], SealedTxn(txns[n - 1]))];
            && ChainOk(store, txns')
            && Frames(store, txns') == fs[..n - 2] + [Joined(fs[n - 2], Sealed(fs[n - 1]))]
  {
    var n := |txns|;
    var init := txns[..n - 1];
    assert init[..n - 2] == txns[..n - 2];
    var below, parent, child := Flat(store, txns[..n - 2]), txns[n - 2], SealedTxn(txns[n - 1]);
    SealEntry(Flat(store, init), txns[n - 1]);
    JoinEntries(below, parent, child);
    var joined := JoinedTxn(below, parent, child);
    ReplaceTop(store, init, joined);
    assert init[n - 2 := joined] == txns[..n - 2] + [joined];
  }

  lemma {:induction false} CommitStep(store: Entries, header: Header, txns: seq<Txn>)
    requires ChainOk(store, txns) && |txns| >= 2
    ensures var n := |txns|;
            var txns' := txns[..n - 2] + [JoinedTxn(Flat(store, txns[..n - 2]), txns[n - 2], SealedTxn(txns[n - 1]))];
            && ChainOk(store, txns')
            && (Abstract(store, header, txns'), Ok(None)) == Step(Abstract(store, header, txns), n, Op.Commit)
  {
    CommitFrames(store, txns);
  }

  lemma {:induction false} RootCommitStep(store: Entries, header: Header, txns: seq<Txn>)
    requires WellKeyed(store) && ChainOk(store, txns) && |txns| == 1
    ensures var t := SealedTxn(txns[0]);
            && WellKeyed(Overlay(store, t.entry)) && (t.exact ==> Exact(store, t.entry))
            && (Abstract(Overlay(store, t.entry), t.header, []), Ok(None))
              == Step(Abstract(store, header, txns), 1, Op.Commit)
  {
    assert txns[..0] == [];
    SealEntry(store, txns[0]);
    FrameAt(store, txns, 0);
  }

  lemma {:induction false} BusyStep(store: Entries, header: Header, txns: seq<Txn>, at: nat, needExact: bool)
    requires 0 < at <= |txns|
    ensures at < |txns| ==>
            Step(Abstract(store, header, txns), at, Op.Commit) == (Abstract(store, header, txns), Failed(HasChild))
    ensures needExact && !txns[at - 1].exact ==>
              Step(Abstract(store, header, txns), at, Op.Seal(needExact))
                == (Abstract(store, header, txns), Failed(NotExact))
    ensures at < |txns| && (needExact ==> txns[at - 1].exact) ==>
              Step(Abstract(store, header, txns), at, Op.Seal(needExact))
                == (Abstract(store, header, txns), Failed(HasChild))
  {
    FrameAt(store, txns, at - 1);
  }

  lemma {:induction false} GetStep(store: Entries, header: Header, txns: seq<Txn>, at: nat, key: LedgerKey)
    requires at <= |txns|
    ensures Step(Abstract(store, header, txns), at, Op.Get(key))
            == (Abstract(store, header, txns), Ok(Lookup(Flat(store, txns[..at]), key)))
  {
    if at > 0 {
      FrameAt(store, txns, at - 1);
    }
  }

  lemma {:induction false} GuardedStep(store: Entries, header: Header, txns: seq<Txn>, at: nat, op: Op)
    requires 0 < at <= |txns| && (IsEdit(op) || op.Open?)
    ensures at < |txns| ==>
            Step(Abstract(store, header, txns), at, op) == (Abstract(store, header, txns), Failed(HasChild))
    ensures at == |txns| && txns[at - 1].isSealed ==>
            Step(Abstract(store, header, txns), at, op) == (Abstract(store, header, txns), Failed(IsSealed))
  {
    FrameAt(store, txns, at - 1);
  }

  /** The entries last modified before a ledger. */
  function Older(m: Entries, ledger: nat): (r: Entries) {
    map k | k in m && m[k].lastModified < ledger :: m[k]
  }

  /** The cache is an exact image of part of the store. */
  predicate CacheOk(store: Entries, cache: Changes) {
    forall k :: k in cache ==> cache[k] == Lookup(store, k)
  }

  class LedgerTxns {
    var store: Entries
    var cache: Changes
    var bestOffers: map<Pair, CachedOffers>
    var header: Header
    var txns: seq<Txn>

    ghost predicate Valid()
      reads this
    {
      WellKeyed(store) && CacheOk(store, cache) && OffersOk(store, bestOffers) && ChainOk(store, txns)
    }

    ghost function Abs(): (s: Stack)
      reads this
    {
      Abstract(store, header, txns)
    }

    constructor (store: Entries, header: Header)
      requires WellKeyed(store)
      ensures Valid() && Abs() == Stack(store, header, [])
    {
      this.store, this.header := store, header;
      cache, bestOffers, txns := map[], map[], [];
    }

    // ----- Looking a key up -----

    /** The cache may drop whatever it likes when an entry is put in. */
    method PutInEntryCache(key: LedgerKey, entry: Option<LedgerEntry>)
      requires CacheOk(store, cache) && entry == Lookup(store, key)
      modifies this`cache
      ensures CacheOk(store, cache)
    {
      var evicted: set<LedgerKey> := *;
      cache := cache[key := entry] - evicted;
    }

    method RootGetNewestVersion(key: LedgerKey) returns (r: Option<LedgerEntry>)
      requires CacheOk(store, cache)
      modifies this`cache
      ensures CacheOk(store, cache)
      ensures r == Lookup(store, key)
    {
      if key in cache {
        return cache[key];
      }
      r := Lookup(store, key);
      PutInEntryCache(key, r);
    }

    /** As seen from transaction `at`; 0 is the root. */
    method GetNewestVersion(at: nat, key: LedgerKey) returns (r: Option<LedgerEntry>)
      requires CacheOk(store, cache) && at <= |txns|
      modifies this`cache
      ensures CacheOk(store, cache)
      ensures r == Lookup(Flat(store, txns[..at]), key)
      decreases at
    {
      if at == 0 {
        r := RootGetNewestVersion(key);
        return;
      }
      assert txns[..at][..at - 1] == txns[..at - 1];
      if key in txns[at - 1].entry {
        return txns[at - 1].entry[key];
      }
      r := GetNewestVersion(at - 1, key);
    }

    // ----- Editing -----

    /** throwIfSealed, then throwIfChild. */
    method Guard(at: nat, ghost op: Op) returns (e: Option<Error>)
      requires Valid() && 0 < at <= |txns| && (IsEdit(op) || op.Open?)
      ensures e.Some? ==> (Abs(), Failed(e.value)) == Step(Abs(), at, op)
      ensures e.None? ==> at == |txns| && !txns[at - 1].isSealed
    {
      ChainAt(store, txns, at - 1);
      if txns[at - 1].isSealed {
        GuardedStep(store, header, txns, at, op);
        return Some(IsSealed);
      }
      if at < |txns| {
        GuardedStep(store, header, txns, at, op);
        return Some(HasChild);
      }
      return None;
    }

    /** What the transactions outside the innermost make visible. */
    ghost function Below(): (m: Entries)
      reads this
      requires txns != []
    {
      Flat(store, txns[..|txns| - 1])
    }

    ghost predicate Editable()
      reads this
    {
      && CacheOk(store, cache) && txns != [] && WellKeyed(Below())
      && TxnOk(Below(), txns[|txns| - 1]) && !txns[|txns| - 1].isSealed
    }

    method GetFromTop(key: LedgerKey) returns (r: Option<LedgerEntry>)
      requires CacheOk(store, cache) && txns != []
      modifies this`cache
      ensures CacheOk(store, cache)
      ensures r == Lookup(Overlay(Below(), txns[|txns| - 1].entry), key)
    {
      assert txns[..|txns|] == txns;
      r := GetNewestVersion(|txns|, key);
    }

    method Edit(at: nat, op: Op) returns (r: Result)
      requires Valid() && 0 < at <= |txns| && IsEdit(op)
      modifies this
      ensures Valid() && (Abs(), r) == Step(old(Abs()), at, op)
    {
      var refused := Guard(at, op);
      if refused.Some? {
        return Failed(refused.value);
      }
      ghost var before := txns;
      ChainPrefix(store, txns, at - 1);
      FlatWellKeyed(store, txns[..at - 1]);
      r := EditTop(op);
      EditStep(store, header, before, txns, op, r);
    }

    method EditTop(op: Op) returns (r: Result)
      requires Editable() && IsEdit(op)
      modifies this`txns, this`cache
      ensures CacheOk(store, cache) && TopEdited(store, old(txns), txns, op, r)
    {
      match op {
        case Create(e) => r := Create(e);
        case CreateOrUpdateWithoutLoading(e) => r := CreateOrUpdateWithoutLoading(e);
        case Load(k) => r := Load(k);
        case LoadWithoutRecord(k) => r := LoadWithoutRecord(k);
        case Erase(k) => r := Erase(k);
        case EraseWithoutLoading(k) => r := EraseWithoutLoading(k);
        case LoadHeader => r := LoadHeader();
      }
    }

    method Create(entry: LedgerEntry) returns (r: Result)
      requires Editable()
      modifies this`txns, this`cache
      ensures CacheOk(store, cache) && TopEdited(store, old(txns), txns, Op.Create(entry), r)
    {
      var n := |txns|;
      var t := txns[n - 1];
      var newest := GetFromTop(KeyOf(entry));
      if newest.Some? {
        return Failed(KeyExists);
      }
      CreateStep(Below(), t, entry);
      txns := txns[n - 1 := Created(t, entry)];
      return Ok(Some(entry));
    }

    method CreateOrUpdateWithoutLoading(entry: LedgerEntry) returns (r: Result)
      requires Editable()
      modifies this`txns, this`cache
      ensures CacheOk(store, cache) && TopEdited(store, old(txns), txns, Op.CreateOrUpdateWithoutLoading(entry), r)
    {
      var n, key := |txns|, KeyOf(entry);
      var t := txns[n - 1];
      if key in t.active {
        return Failed(KeyActive);
      }
      PutEntry(Below(), t, key, entry);
      txns := txns[n - 1 := t.(entry := t.entry[key := Some(entry)])];
      return Ok(None);
    }

    method Load(key: LedgerKey) returns (r: Result)
      requires Editable()
      modifies this`txns, this`cache
      ensures CacheOk(store, cache) && TopEdited(store, old(txns), txns, Op.Load(key), r)
    {
      var n := |txns|;
      var t := txns[n - 1];
      if key in t.active {
        return Failed(KeyActive);
      }
      var newest := GetFromTop(key);
      if newest.None? {
        return Ok(None);
      }
      LoadStep(Below(), t, key, newest.value);
      txns := txns[n - 1 := Loaded(t, key, newest.value)];
      return Ok(newest);
    }

    method LoadWithoutRecord(key: LedgerKey) returns (r: Result)
      requires Editable()
      modifies this`txns, this`cache
      ensures CacheOk(store, cache) && TopEdited(store, old(txns), txns, Op.LoadWithoutRecord(key), r)
    {
      var n := |txns|;
      var t := txns[n - 1];
      if key in t.active {
        return Failed(KeyActive);
      }
      var newest := GetFromTop(key);
      if newest.None? {
        return Ok(None);
      }
      PeekStep(Below(), t, key, newest.value);
      txns := txns[n - 1 := Peeked(t, key)];
      return Ok(newest);
    }

    method Erase(key: LedgerKey) returns (r: Result)
      requires Editable()
      modifies this`txns, this`cache
      ensures CacheOk(store, cache) && TopEdited(store, old(txns), txns, Op.Erase(key), r)
    {
      var n := |txns|;
      var t := txns[n - 1];
      var newest := GetFromTop(key);
      if newest.None? {
        return Failed(KeyMissing);
      }
      var previous := GetNewestVersion(n - 1, key);
      EraseStep(Below(), t, key);
      if previous.None? {
        txns := txns[n - 1 := t.(entry := t.entry - {key}, active := t.active - {key})];
      } else {
        txns := txns[n - 1 := t.(entry := t.entry[key := None], active := t.active - {key})];
      }
      return Ok(None);
    }

    method EraseWithoutLoading(key: LedgerKey) returns (r: Result)
      requires Editable()
      modifies this`txns, this`cache
      ensures CacheOk(store, cache) && TopEdited(store, old(txns), txns, Op.EraseWithoutLoading(key), r)
    {
      var n := |txns|;
      var t := txns[n - 1];
      EraseBlindly(Below(), t, key);
      txns := txns[n - 1 := t.(entry := t.entry[key := None], active := t.active - {key}, exact := false)];
      return Ok(None);
    }

    method LoadHeader() returns (r: Result)
      requires Editable()
      modifies this`txns, this`cache
      ensures CacheOk(store, cache) && TopEdited(store, old(txns), txns, Op.LoadHeader, r)
    {
      var n := |txns|;
      var t := txns[n - 1];
      if t.headerActive {
        return Failed(HeaderActive);
      }
      txns := txns[n - 1 := t.(headerActive := true)];
      return Ok(None);
    }

    // ----- Entries and headers given back, or written through -----

    method Return(at: nat, op: Op) returns (r: Result)
      requires Valid() && 0 < at <= |txns| && IsReturn(op)
      modifies this
      ensures Valid() && (Abs(), r) == Step(old(Abs()), at, op)
    {
      ChainAt(store, txns, at - 1);
      if at < |txns| {
        r := Failed(if op.UnsealHeader? then NotSealed else NotActive);
        UnchangedReturn(store, header, txns, at, op, r);
        return;
      }
      ghost var before := txns;
      r := ReturnTop(op);
      ReturnStep(store, header, before, txns, op, r);
    }

    method ReturnTop(op: Op) returns (r: Result)
      requires txns != [] && TxnOk(Below(), txns[|txns| - 1]) && IsReturn(op)
      modifies this`txns
      ensures TopReturned(store, old(txns), txns, op, r)
    {
      match op {
        case Assign(e) => r := Assign(e);
        case Deactivate(k) => r := Deactivate(k);
        case AssignHeader(h) => r := AssignHeader(h);
        case DeactivateHeader => r := DeactivateHeader();
        case UnsealHeader(h) => r := UnsealHeader(h);
      }
    }

    method Assign(entry: LedgerEntry) returns (r: Result)
      requires txns != [] && TxnOk(Below(), txns[|txns| - 1])
      modifies this`txns
      ensures TopReturned(store, old(txns), txns, Op.Assign(entry), r)
    {
      var n := |txns|;
      var t := txns[n - 1];
      var key := KeyOf(entry);
      if key !in t.active || !t.active[key] {
        return Failed(NotActive);
      }
      AssignStep(Below(), t, entry);
      txns := txns[n - 1 := t.(entry := t.entry[key := Some(entry)])];
      return Ok(None);
    }

    method Deactivate(key: LedgerKey) returns (r: Result)
      requires txns != [] && TxnOk(Below(), txns[|txns| - 1])
      modifies this`txns
      ensures TopReturned(store, old(txns), txns, Op.Deactivate(key), r)
    {
      var n := |txns|;
      var t := txns[n - 1];
      if key !in t.active {
        return Failed(NotActive);
      }
      txns := txns[n - 1 := t.(active := t.active - {key})];
      return Ok(None);
    }

    method AssignHeader(h: Header) returns (r: Result)
      requires txns != [] && TxnOk(Below(), txns[|txns| - 1])
      modifies this`txns
      ensures TopReturned(store, old(txns), txns, Op.AssignHeader(h), r)
    {
      var n := |txns|;
      var t := txns[n - 1];
      if !t.headerActive {
        return Failed(NotActive);
      }
      txns := txns[n - 1 := t.(header := h)];
      return Ok(None);
    }

    method DeactivateHeader() returns (r: Result)
      requires txns != [] && TxnOk(Below(), txns[|txns| - 1])
      modifies this`txns
      ensures TopReturned(store, old(txns), txns, Op.DeactivateHeader, r)
    {
      var n := |txns|;
      var t := txns[n - 1];
      if !t.headerActive {
        return Failed(NotActive);
      }
      txns := txns[n - 1 := t.(headerActive := false)];
      return Ok(None);
    }

    method UnsealHeader(h: Header) returns (r: Result)
      requires txns != [] && TxnOk(Below(), txns[|txns| - 1])
      modifies this`txns
      ensures TopReturned(store, old(txns), txns, Op.UnsealHeader(h), r)
    {
      var n := |txns|;
      var t := txns[n - 1];
      if !t.isSealed {
        return Failed(NotSealed);
      }
      if t.headerActive {
        return Failed(HeaderActive);
      }
      txns := txns[n - 1 := t.(header := h)];
      return Ok(None);
    }

    // ----- Opening, sealing, committing and rolling back -----

    method Open(at: nat, stamps: bool) returns (r: Result)
      requires Valid() && at <= |txns|
      modifies this
      ensures Valid() && (Abs(), r) == Step(old(Abs()), at, Op.Open(stamps))
    {
      if at == 0 {
        if txns != [] {
          return Failed(HasChild);
        }
        OpenAtRoot(store, header, stamps);
        txns := [NewTxn(header, stamps)];
        return Ok(None);
      }
      var refused := Guard(at, Op.Open(stamps));
      if refused.Some? {
        return Failed(refused.value);
      }
      OpenStep(store, header, txns, stamps);
      var t := txns[at - 1];
      txns := txns[at - 1 := Hushed(t)] + [NewTxn(t.header, stamps)];
      return Ok(None);
    }

    method Rollback(at: nat) returns (r: Result)
      requires Valid() && 0 < at <= |txns|
      modifies this
      ensures Valid() && (Abs(), r) == Step(old(Abs()), at, Op.Rollback)
    {
      RollbackStep(store, header, txns, at);
      var n := |txns|;
      while n >= at
        invariant at - 1 <= n <= |old(txns)| && txns == old(txns)[..n]
        invariant store == old(store) && header == old(header) && cache == old(cache) && bestOffers == old(bestOffers)
      {
        n := n - 1;
        txns := txns[..n];
      }
      return Ok(None);
    }

    /** maybeUpdateLastModified. */
    method StampEntries(t: Txn) returns (entries: Changes)
      ensures entries == StampedChanges(t.entry, t.stamps, t.header.ledgerSeq)
    {
      entries := map[];
      var left := t.entry.Keys;
      while left != {}
        invariant left <= t.entry.Keys
        invariant entries.Keys == t.entry.Keys - left
        invariant forall k :: k in entries ==> entries[k] == StampedChange(t.entry[k], t.stamps, t.header.ledgerSeq)
      {
        var k :| k in left;
        left := left - {k};
        var e := t.entry[k];
        if e.Some? && t.stamps {
          e := Some(e.value.(lastModified := t.header.ledgerSeq));
        }
        entries := entries[k := e];
      }
    }

    method SealTop()
      requires txns != []
      modifies this`txns
      ensures txns == old(txns)[|old(txns)| - 1 := SealedTxn(old(txns)[|old(txns)| - 1])]
    {
      var n := |txns|;
      var t := txns[n - 1];
      if !t.isSealed {
        var entries := StampEntries(t);
        txns := txns[n - 1 := t.(entry := entries, active := map[], headerActive := false, isSealed := true)];
      }
    }

    method Seal(at: nat, needExact: bool) returns (r: Result)
      requires Valid() && 0 < at <= |txns|
      modifies this
      ensures Valid() && (Abs(), r) == Step(old(Abs()), at, Op.Seal(needExact))
      ensures r.Ok? ==> at == |txns| == |old(txns)| && txns == old(txns)[at - 1 := SealedTxn(old(txns)[at - 1])]
      ensures r.Ok? <==> at == |old(txns)| && (needExact ==> old(txns)[at - 1].exact)
      ensures store == old(store) && header == old(header) && |txns| == |old(txns)|
    {
      BusyStep(store, header, txns, at, needExact);
      if needExact && !txns[at - 1].exact {
        return Failed(NotExact);
      }
      if at < |txns| {
        return Failed(HasChild);
      }
      SealStep(store, header, txns, needExact);
      SealTop();
      return Ok(None);
    }

    /** commitChild's loop: an erased key is kept only if it exists further out. */
    method JoinChild(n: nat, child: Changes) returns (entries: Changes)
      requires CacheOk(store, cache) && n < |txns|
      modifies this`cache
      ensures CacheOk(store, cache)
      ensures entries == JoinedChanges(Flat(store, txns[..n]), txns[n].entry, child)
    {
      entries := txns[n].entry;
      ghost var below := Flat(store, txns[..n]);
      var left, taken := child.Keys, {};
      assert entries == JoinedChanges(below, txns[n].entry, Restrict(child, taken));
      while left != {}
        invariant CacheOk(store, cache) && left + taken == child.Keys && left !! taken
        invariant entries == JoinedChanges(below, txns[n].entry, Restrict(child, taken))
      {
        var key :| key in left;
        JoinOne(below, txns[n].entry, child, taken, key);
        left, taken := left - {key}, taken + {key};
        if child[key].Some? {
          entries := entries[key := child[key]];
        } else {
          var previous := GetNewestVersion(n, key);
          if previous.None? {
            entries := entries - {key};
          } else {
            entries := entries[key := None];
          }
        }
      }
      assert Restrict(child, taken) == child;
    }

    method Commit(at: nat) returns (r: Result)
      requires Valid() && 0 < at <= |txns|
      modifies this
      ensures Valid() && (Abs(), r) == Step(old(Abs()), at, Op.Commit)
    {
      BusyStep(store, header, txns, at, false);
      if at < |txns| {
        return Failed(HasChild);
      }
      if at == 1 {
        CommitToRoot();
      } else {
        CommitToParent();
      }
      return Ok(None);
    }

    /** No delete misses a row: `ok` is the program's own check. */
    method WriteToRoot()
      requires |txns| == 1 && (txns[0].exact ==> Exact(store, txns[0].entry))
      modifies this
      ensures store == Overlay(old(store), old(txns)[0].entry) && cache == map[] && bestOffers == map[]
      ensures header == old(txns)[0].header && txns == []
    {
      var t := txns[0];
      var ok, written := CommitToStore(store, t.entry, t.exact);
      assert ok;
      store, cache, bestOffers, header, txns := written, map[], map[], t.header, [];
    }

    method CommitToRoot()
      requires Valid() && |txns| == 1
      modifies this
      ensures Valid() && (Abs(), Ok(None)) == Step(old(Abs()), 1, Op.Commit)
    {
      RootCommitStep(store, header, txns);
      SealTop();
      WriteToRoot();
    }

    method CommitToParent()
      requires Valid() && |txns| >= 2
      modifies this
      ensures Valid() && (Abs(), Ok(None)) == Step(old(Abs()), |old(txns)|, Op.Commit)
    {
      CommitStep(store, header, txns);
      ghost var before := txns;
      SealTop();
      WriteToParent(before);
    }

    method WriteToParent(ghost before: seq<Txn>)
      requires CacheOk(store, cache) && |txns| >= 2 && |before| == |txns|
      requires txns == before[|txns| - 1 := SealedTxn(before[|txns| - 1])]
      modifies this`cache, this`txns
      ensures CacheOk(store, cache)
      ensures var n := |before|;
              txns == before[..n - 2] + [JoinedTxn(Flat(store, before[..n - 2]), before[n - 2],
                SealedTxn(before[n - 1]))]
    {
      var n := |txns|;
      var parent, child := txns[n - 2], txns[n - 1];
      assert txns[..n - 2] == before[..n - 2];
      var exact := parent.exact && child.exact;
      var entries := JoinChild(n - 2, child.entry);
      txns := txns[..n - 2] + [parent.(entry := entries, header := child.header, exact := exact)];
    }

    /** deleteObjectsModifiedOnOrAfterLedger; it throws while there is a child. */
    method DeleteModifiedOnOrAfter(ledger: nat) returns (r: Result)
      requires Valid()
      modifies this
      ensures Valid() && txns == old(txns) && header == old(header)
      ensures old(txns) != [] ==> r == Failed(HasChild) && store == old(store)
      ensures old(txns) == [] ==> r == Ok(None) && store == Older(old(store), ledger)
    {
      if txns != [] {
        return Failed(HasChild);
      }
      cache, bestOffers := map[], map[];
      store := map k | k in store && store[k].lastModified < ledger :: store[k];
      return Ok(None);
    }

    // ----- Any run -----

    method Perform(at: nat, op: Op) returns (r: Result)
      requires Valid()
      modifies this
      ensures Valid() && (Abs(), r) == Step(old(Abs()), at, op)
    {
      if at > |txns| || (at == 0 && !op.Get? && !op.Open?) {
        return Failed(Handled);
      }
      if op.Get? {
        GetStep(store, header, txns, at, op.key);
        var e := GetNewestVersion(at, op.key);
        return Ok(e);
      } else if op.Open? {
        r := Open(at, op.stamps);
      } else if op.Seal? {
        r := Seal(at, op.needExact);
      } else if op.Commit? {
        r := Commit(at);
      } else if op.Rollback? {
        r := Rollback(at);
      } else if IsEdit(op) {
        r := Edit(at, op);
      } else {
        r := Return(at, op);
      }
    }

    /** Every program of calls leaves the stack of maps, and returns and fails,
        exactly as the stack of maps does. */
    method RunCalls(calls: seq<Call>) returns (rs: seq<Result>)
      requires Valid()
      modifies this
      ensures Valid() && (Abs(), rs) == Run(old(Abs()), calls)
    {
      rs := [];
      ghost var start := Abs();
      for i := 0 to |calls|
        invariant Valid() && (Abs(), rs) == Run(start, calls[..i])
      {
        assert calls[..i + 1][..i] == calls[..i];
        var r := Perform(calls[i].at, calls[i].op);
        rs := rs + [r];
      }
      assert calls[..|calls|] == calls;
    }
  }

  function Created(t: Txn, e: LedgerEntry): (r: Txn) {
    var k := KeyOf(e);
    t.(entry := t.entry[k := Some(e)], active := if k in t.active then t.active else t.active[k := true])
  }

  lemma {:induction false} CreateStep(below: Entries, t: Txn, e: LedgerEntry)
    requires TxnOk(below, t) && !t.isSealed && KeyOf(e) !in Overlay(below, t.entry)
    ensures TxnOk(below, Created(t, e))
    ensures (FrameOf(below, Created(t, e)), Ok(Some(e))) == Edited(FrameOf(below, t), Op.Create(e))
  {
    PutEntry(below, t, KeyOf(e), e);
  }

  lemma {:induction false} EraseStep(below: Entries, t: Txn, k: LedgerKey)
    requires TxnOk(below, t) && k in Overlay(below, t.entry)
    ensures var t' := t.(entry := Erased(below, t.entry, k), active := t.active - {k});
            TxnOk(below, t') && (FrameOf(below, t'), Ok(None)) == Edited(FrameOf(below, t), Op.Erase(k))
  {
    EraseEntry(below, t, k);
  }

  lemma {:induction false} AssignStep(below: Entries, t: Txn, e: LedgerEntry)
    requires TxnOk(below, t) && KeyOf(e) in t.active && t.active[KeyOf(e)]
    ensures var t' := t.(entry := t.entry[KeyOf(e) := Some(e)]);
            TxnOk(below, t') && (FrameOf(below, t'), Ok(None)) == Returned(FrameOf(below, t), Op.Assign(e))
  {
    PutEntry(below, t, KeyOf(e), e);
    assert LiveKeys(t.entry) + {KeyOf(e)} == LiveKeys(t.entry);
  }

  function Loaded(t: Txn, k: LedgerKey, e: LedgerEntry): (r: Txn) {
    t.(entry := t.entry[k := Some(e)], active := t.active[k := true])
  }

  /** Loading records the entry without changing the map. */
  lemma {:induction false} LoadStep(below: Entries, t: Txn, k: LedgerKey, e: LedgerEntry)
    requires TxnOk(below, t) && WellKeyed(below) && !t.isSealed && k !in t.active
             && Lookup(Overlay(below, t.entry), k) == Some(e)
    ensures TxnOk(below, Loaded(t, k, e))
    ensures (FrameOf(below, Loaded(t, k, e)), Ok(Some(e))) == Edited(FrameOf(below, t), Op.Load(k))
  {
    PutEntry(below, t, k, e);
    assert Overlay(below, t.entry)[k := e] == Overlay(below, t.entry);
  }

  function Peeked(t: Txn, k: LedgerKey): (r: Txn) {
    t.(active := t.active[k := false])
  }

  lemma {:induction false} PeekStep(below: Entries, t: Txn, k: LedgerKey, e: LedgerEntry)
    requires TxnOk(below, t) && !t.isSealed && k !in t.active && Lookup(Overlay(below, t.entry), k) == Some(e)
    ensures TxnOk(below, Peeked(t, k))
    ensures (FrameOf(below, Peeked(t, k)), Ok(Some(e))) == Edited(FrameOf(below, t), Op.LoadWithoutRecord(k))
  {
  }

  lemma {:induction false} FlatWellKeyed(store: Entries, txns: seq<Txn>)
    requires WellKeyed(store) && ChainOk(store, txns)
    ensures WellKeyed(Flat(store, txns))
  {
    if txns != [] {
      FlatWellKeyed(store, txns[..|txns| - 1]);
    }
  }
}
