/** What nested ledger transactions mean: a stack of plain maps. Opening a child
    copies the top map, committing replaces the parent's map by the child's, and
    rolling back drops maps. The program never builds these maps; module
    LedgerTxn shows that it behaves as if it did. */
module TxnStack {
  import opened BucketFile
  import opened LedgerTypes

  type Entries = map<LedgerKey, LedgerEntry>

  datatype Header = Header(ledgerSeq: nat, body: nat)

  /** One open transaction. */
  datatype Frame = Frame(
    view: Entries,
    /** Entries that the transaction holds itself, changed or merely loaded. */
    touched: set<LedgerKey>,
    /** Entries handed out and not yet given back; true if they may be written. */
    active: map<LedgerKey, bool>,
    headerActive: bool,
    header: Header,
    isSealed: bool,
    /** shouldUpdateLastModified. */
    stamps: bool,
    /** Consistency is EXACT rather than EXTRA_DELETES. */
    exact: bool)

  datatype Stack = Stack(store: Entries, header: Header, frames: seq<Frame>)

  datatype Error =
    | Handled | IsSealed | NotSealed | HasChild | KeyExists | KeyMissing | KeyActive | NotActive | HeaderActive
    | NotExact

  datatype Result = Failed(error: Error) | Ok(entry: Option<LedgerEntry>)

  datatype Op =
    | Open(stamps: bool)
    | Get(key: LedgerKey)
    | Create(entry: LedgerEntry)
    | CreateOrUpdateWithoutLoading(entry: LedgerEntry)
    | Load(key: LedgerKey)
    | LoadWithoutRecord(key: LedgerKey)
    /** Writing through a loaded entry. */
    | Assign(entry: LedgerEntry)
    | Erase(key: LedgerKey)
    | EraseWithoutLoading(key: LedgerKey)
    | Deactivate(key: LedgerKey)
    | LoadHeader
    | AssignHeader(header: Header)
    | DeactivateHeader
    | UnsealHeader(header: Header)
    /** What getLiveEntries, getDeadEntries, getDelta and getChanges do to the
        transaction; all but the first insist on exact consistency. */
    | Seal(needExact: bool)
    | Commit
    | Rollback

  function Lookup(m: Entries, k: LedgerKey): (r: Option<LedgerEntry>) {
    if k in m then Some(m[k]) else None
  }

  /** Stamping an entry with the ledger in which it was touched. */
  function Stamped(f: Frame): (m: Entries)
    ensures m.Keys == f.view.Keys
  {
    map k | k in f.view :: if f.stamps && k in f.touched then f.view[k].(lastModified := f.header.ledgerSeq)
      else f.view[k]
  }

  function Sealed(f: Frame): (r: Frame) {
    if f.isSealed then f
    else f.(view := Stamped(f), active := map[], headerActive := false, isSealed := true)
  }

  /** The parent after a commit of its child. */
  function Joined(parent: Frame, child: Frame): (r: Frame) {
    parent.(view := child.view,
            touched := child.touched + (set k | k in parent.touched && k in child.view),
            header := child.header,
            exact := parent.exact && child.exact)
  }

  /** Operations that demand an unsealed transaction without a child. */
  function Edited(f: Frame, op: Op): (r: (Frame, Result)) {
    match op
    case Create(e) =>
      var k := KeyOf(e);
      if k in f.view then (f, Failed(KeyExists))
      else (f.(view := f.view[k := e], touched := f.touched + {k}, active := f.active[k := true]), Ok(Some(e)))
    case CreateOrUpdateWithoutLoading(e) =>
      var k := KeyOf(e);
      if k in f.active then (f, Failed(KeyActive))
      else (f.(view := f.view[k := e], touched := f.touched + {k}), Ok(None))
    case Load(k) =>
      if k in f.active then (f, Failed(KeyActive))
      else if k !in f.view then (f, Ok(None))
      else (f.(touched := f.touched + {k}, active := f.active[k := true]), Ok(Some(f.view[k])))
    case LoadWithoutRecord(k) =>
      if k in f.active then (f, Failed(KeyActive))
      else if k !in f.view then (f, Ok(None))
      else (f.(active := f.active[k := false]), Ok(Some(f.view[k])))
    case Erase(k) =>
      if k !in f.view then (f, Failed(KeyMissing))
      else (f.(view := f.view - {k}, touched := f.touched - {k}, active := f.active - {k}), Ok(None))
    case EraseWithoutLoading(k) =>
      (f.(view := f.view - {k}, touched := f.touched - {k}, active := f.active - {k}, exact := false), Ok(None))
    case LoadHeader =>
      if f.headerActive then (f, Failed(HeaderActive)) else (f.(headerActive := true), Ok(None))
    case _ => (f, Ok(None))
  }

  /** Operations on what a transaction has handed out. */
  function Returned(f: Frame, op: Op): (r: (Frame, Result)) {
    match op
    case Assign(e) =>
      var k := KeyOf(e);
      if k !in f.active || !f.active[k] then (f, Failed(NotActive))
      else (f.(view := f.view[k := e]), Ok(None))
    case Deactivate(k) =>
      if k !in f.active then (f, Failed(NotActive)) else (f.(active := f.active - {k}), Ok(None))
    case AssignHeader(h) =>
      if !f.headerActive then (f, Failed(NotActive)) else (f.(header := h), Ok(None))
    case DeactivateHeader =>
      if !f.headerActive then (f, Failed(NotActive)) else (f.(headerActive := false), Ok(None))
    case UnsealHeader(h) =>
      if !f.isSealed then (f, Failed(NotSealed)) else (f.(header := h), Ok(None))
    case _ => (f, Ok(None))
  }

  function Child(view: Entries, header: Header, stamps: bool): (f: Frame) {
    Frame(view, {}, map[], false, header, false, stamps, true)
  }

  /** Replacing the frame of transaction `at`, counted from 1. */
  function WithFrame(s: Stack, at: nat, r: (Frame, Result)): (r': (Stack, Result))
    requires 0 < at <= |s.frames|
  {
    (s.(frames := s.frames[at - 1 := r.0]), r.1)
  }

  /** Transaction 0 is the root. */
  function Step(s: Stack, at: nat, op: Op): (r: (Stack, Result)) {
    if at == 0 then AtRoot(s, op)
    else if at > |s.frames| then (s, Failed(Handled))
    else AtFrame(s, at, op)
  }

  function AtRoot(s: Stack, op: Op): (r: (Stack, Result)) {
    match op
    case Get(k) => (s, Ok(Lookup(s.store, k)))
    case Open(stamps) =>
      if s.frames != [] then (s, Failed(HasChild))
      else (s.(frames := [Child(s.store, s.header, stamps)]), Ok(None))
    case _ => (s, Failed(Handled))
  }

  function AtFrame(s: Stack, at: nat, op: Op): (r: (Stack, Result))
    requires 0 < at <= |s.frames|
  {
    var n, f := |s.frames|, s.frames[at - 1];
    match op
    case Get(k) => (s, Ok(Lookup(f.view, k)))
    case Rollback => (s.(frames := s.frames[..at - 1]), Ok(None))
    case Assign(_) | Deactivate(_) | AssignHeader(_) | DeactivateHeader | UnsealHeader(_) =>
      WithFrame(s, at, Returned(f, op))
    case Seal(needExact) =>
      if needExact && !f.exact then (s, Failed(NotExact))
      else if at < n then (s, Failed(HasChild))
      else WithFrame(s, at, (Sealed(f), Ok(None)))
    case Commit =>
      if at < n then (s, Failed(HasChild)) else (Committed(s), Ok(None))
    case _ =>
      if at < n then (s, Failed(HasChild))
      else if f.isSealed then (s, Failed(IsSealed))
      else if op.Open? then
        (s.(frames := s.frames[n - 1 := f.(active := map[], headerActive := false)] +
          [Child(f.view, f.header, op.stamps)]), Ok(None))
      else WithFrame(s, at, Edited(f, op))
  }

  /** The innermost transaction commits. */
  function Committed(s: Stack): (r: Stack)
    requires s.frames != []
  {
    var n, child := |s.frames|, Sealed(s.frames[|s.frames| - 1]);
    if n == 1 then Stack(child.view, child.header, [])
    else s.(frames := s.frames[..n - 2] + [Joined(s.frames[n - 2], child)])
  }

  datatype Call = Call(at: nat, op: Op)

  /** Running a whole program of calls, collecting the results. */
  function Run(s: Stack, calls: seq<Call>): (r: (Stack, seq<Result>))
    ensures |r.1| == |calls|
  {
    if calls == [] then (s, [])
    else
      var prior := Run(s, calls[..|calls| - 1]);
      var last := Step(prior.0, calls[|calls| - 1].at, calls[|calls| - 1].op);
      (last.0, prior.1 + [last.1])
  }

  // ----- Laws of every run -----

  predicate Idle(f: Frame) {
    f.active == map[] && !f.headerActive && !f.isSealed
  }

  /** Only the innermost transaction has anything handed out or is sealed. */
  predicate OuterIdle(fs: seq<Frame>) {
    forall i :: 0 <= i < |fs| - 1 ==> Idle(fs[i])
  }

  lemma {:induction false} ReturnToIdle(f: Frame, op: Op)
    requires Idle(f)
    ensures Returned(f, op).0 == f
  {
  }

  lemma {:induction false} CommitIdle(s: Stack)
    requires s.frames != [] && OuterIdle(s.frames)
    ensures OuterIdle(Committed(s).frames)
  {
  }

  lemma {:induction false} StepIdle(s: Stack, at: nat, op: Op)
    requires OuterIdle(s.frames)
    ensures OuterIdle(Step(s, at, op).0.frames)
  {
    if 0 < at < |s.frames| {
      ReturnToIdle(s.frames[at - 1], op);
    } else if at == |s.frames| > 0 {
      CommitIdle(s);
    }
  }

  lemma {:induction false} RunIdle(s: Stack, calls: seq<Call>)
    requires OuterIdle(s.frames)
    ensures OuterIdle(Run(s, calls).0.frames)
  {
    if calls != [] {
      var rest, last := calls[..|calls| - 1], calls[|calls| - 1];
      RunIdle(s, rest);
      StepIdle(Run(s, rest).0, last.at, last.op);
    }
  }

  /** Calls on transaction n and its descendants that do not end n itself. */
  predicate Within(calls: seq<Call>, n: nat) {
    forall i :: 0 <= i < |calls| ==>
      calls[i].at >= n && (calls[i].at == n ==> !calls[i].op.Commit? && !calls[i].op.Rollback?)
  }

  lemma {:induction false} StepWithin(s: Stack, c: Call, n: nat)
    requires 0 < n <= |s.frames| && Within([c], n)
    ensures var s' := Step(s, c.at, c.op).0;
            n <= |s'.frames| && s'.frames[..n - 1] == s.frames[..n - 1] && s'.store == s.store && s'.header == s.header
  {
    assert [c][0] == c;
  }

  /** Nothing done within a transaction is felt outside it. */
  lemma {:induction false} RunWithin(s: Stack, calls: seq<Call>, n: nat)
    requires 0 < n <= |s.frames| && Within(calls, n)
    ensures var s' := Run(s, calls).0;
            n <= |s'.frames| && s'.frames[..n - 1] == s.frames[..n - 1] && s'.store == s.store && s'.header == s.header
  {
    if calls != [] {
      var rest, last := calls[..|calls| - 1], calls[|calls| - 1];
      assert Within(rest, n) by {
        assert forall i :: 0 <= i < |rest| ==> rest[i] == calls[i];
      }
      RunWithin(s, rest, n);
      StepWithin(Run(s, rest).0, last, n);
    }
  }

  /** Opening a child, doing anything within it and rolling it back leaves the
      parent's map, header and consistency as they were. */
  lemma {:induction false} RollbackRestores(s: Stack, stamps: bool, calls: seq<Call>)
    requires s.frames != [] && !s.frames[|s.frames| - 1].isSealed && Within(calls, |s.frames| + 1)
    ensures var n, f := |s.frames|, s.frames[|s.frames| - 1];
            var started := Step(s, n, Op.Open(stamps)).0;
            Step(Run(started, calls).0, n + 1, Op.Rollback).0
              == s.(frames := s.frames[n - 1 := f.(active := map[], headerActive := false)])
  {
    var n := |s.frames|;
    var started := Step(s, n, Op.Open(stamps)).0;
    RunWithin(started, calls, n + 1);
  }

  /** Opening a child, doing anything within it and committing it gives the
      parent the child's sealed map and nothing else outside changes. */
  lemma {:induction false} CommitTransfers(s: Stack, stamps: bool, calls: seq<Call>)
    requires s.frames != [] && !s.frames[|s.frames| - 1].isSealed && Within(calls, |s.frames| + 1)
    ensures var n := |s.frames|;
            var inner := Run(Step(s, n, Op.Open(stamps)).0, calls).0;
            var r := Step(inner, n + 1, Op.Commit);
            if |inner.frames| > n + 1 then r == (inner, Failed(HasChild))
            else
              && r.1 == Ok(None) && |r.0.frames| == n && r.0.frames[..n - 1] == s.frames[..n - 1]
              && r.0.frames[n - 1].view == Sealed(inner.frames[n]).view
              && r.0.frames[n - 1].header == inner.frames[n].header
              && r.0.store == s.store
  {
    var n := |s.frames|;
    var started := Step(s, n, Op.Open(stamps)).0;
    RunWithin(started, calls, n + 1);
    var inner := Run(started, calls).0;
    assert inner.frames[..n] == started.frames[..n];
    assert inner.frames[..n][..n - 1] == s.frames[..n - 1];
  }
}
