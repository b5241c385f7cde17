/** The laws that callers of nested ledger transactions rely on
    (src/ledger/LedgerTxn.cpp), each as what can be seen before and after a call: which
    entry a key has, whether it is handed out, and what calls answer. */
module TxnLaws {
  import opened BucketFile
  import opened LedgerTypes
  import opened TxnStack

  // ----- What can be seen -----

  /** The innermost transaction, or the root. */
  function Top(s: Stack): (n: nat) {
    |s.frames|
  }

  function After(s: Stack, op: Op): (s': Stack) {
    Step(s, Top(s), op).0
  }

  function Result(s: Stack, op: Op): (r: TxnStack.Result) {
    Step(s, Top(s), op).1
  }

  /** What the innermost transaction answers when asked for a key. */
  function Seen(s: Stack, k: LedgerKey): (r: TxnStack.Result) {
    Result(s, Op.Get(k))
  }

  predicate Exists(s: Stack, k: LedgerKey) {
    Seen(s, k).Ok? && Seen(s, k).entry.Some?
  }

  /** Giving the entry back is accepted exactly for what is handed out. */
  predicate HandedOut(s: Stack, k: LedgerKey) {
    Result(s, Op.Deactivate(k)).Ok?
  }

  /** Writing through the entry is accepted. */
  predicate Writable(s: Stack, e: LedgerEntry) {
    Result(s, Op.Assign(e)).Ok?
  }

  /** A transaction is open and may be edited. */
  predicate Editable(s: Stack) {
    s.frames != [] && !s.frames[|s.frames| - 1].isSealed
  }

  /** Everything about the other keys is as before, and so is everything outside the
      innermost transaction. */
  ghost predicate OthersKept(s: Stack, s': Stack, k: LedgerKey) {
    && Top(s') == Top(s) > 0 && Editable(s')
    && s'.store == s.store && s'.header == s.header && s'.frames[..Top(s) - 1] == s.frames[..Top(s) - 1]
    && s'.frames[Top(s) - 1].header == s.frames[Top(s) - 1].header
    && forall j :: j != k ==> SameAt(s, s', j)
  }

  ghost predicate SameAt(s: Stack, s': Stack, j: LedgerKey) {
    && Seen(s', j) == Seen(s, j) && (HandedOut(s', j) <==> HandedOut(s, j))
    && forall e :: KeyOf(e) == j ==> (Writable(s', e) <==> Writable(s, e))
  }

  /** The frames agree on every key but k, and on everything that is not about keys. */
  ghost predicate FrameKept(f: Frame, f': Frame, k: LedgerKey) {
    && f'.header == f.header && !f.isSealed && !f'.isSealed
    && forall j :: j != k ==>
         && Lookup(f'.view, j) == Lookup(f.view, j) && (j in f'.active <==> j in f.active)
         && (j in f.active ==> f'.active[j] == f.active[j])
  }

  lemma {:induction false} KeptFromFrame(s: Stack, f': Frame, k: LedgerKey)
    requires s.frames != [] && FrameKept(s.frames[Top(s) - 1], f', k)
    ensures OthersKept(s, s.(frames := s.frames[Top(s) - 1 := f']), k)
  {
    var s' := s.(frames := s.frames[Top(s) - 1 := f']);
    forall j | j != k
      ensures SameAt(s, s', j)
    {
      SameFromFrame(s, f', k, j);
    }
  }

  lemma {:induction false} SameFromFrame(s: Stack, f': Frame, k: LedgerKey, j: LedgerKey)
    requires s.frames != [] && FrameKept(s.frames[Top(s) - 1], f', k) && j != k
    ensures SameAt(s, s.(frames := s.frames[Top(s) - 1 := f']), j)
  {
  }

  // ----- Asking -----

  /** The root answers from the store, and asking changes nothing anywhere. */
  lemma {:induction false} GetLaw(s: Stack, at: nat, k: LedgerKey)
    requires at <= |s.frames|
    ensures Step(s, at, Op.Get(k)).0 == s && Step(s, at, Op.Get(k)).1.Ok?
    ensures at == 0 ==> Step(s, at, Op.Get(k)).1.entry == if k in s.store then Some(s.store[k]) else None
  {
  }

  // ----- Editing -----

  /** An existing key cannot be created; a new one is there afterwards, handed out for
      writing. */
  lemma {:induction false} CreateLaw(s: Stack, e: LedgerEntry)
    requires Editable(s)
    ensures var k, s', r := KeyOf(e), After(s, Op.Create(e)), Result(s, Op.Create(e));
            && (Exists(s, k) <==> r.Failed?)
            && (Exists(s, k) ==> r == Failed(KeyExists) && s' == s)
            && (!Exists(s, k) ==>
                  && r == Ok(Some(e)) && Seen(s', k) == Ok(Some(e)) && HandedOut(s', k) && Writable(s', e)
                  && OthersKept(s, s', k))
  {
    var f, k := s.frames[Top(s) - 1], KeyOf(e);
    KeptFromFrame(s, f.(view := f.view[k := e], touched := f.touched + {k}, active := f.active[k := true]), k);
  }

  /** The key gets the entry whether it existed or not, and is not handed out; it is an
      error, and changes nothing, exactly if the key is handed out. */
  lemma {:induction false} CreateOrUpdateLaw(s: Stack, e: LedgerEntry)
    requires Editable(s)
    ensures var op := Op.CreateOrUpdateWithoutLoading(e);
            var k, s', r := KeyOf(e), After(s, op), Result(s, op);
            && (HandedOut(s, k) <==> r.Failed?)
            && (HandedOut(s, k) ==> r == Failed(KeyActive) && s' == s)
            && (!HandedOut(s, k) ==>
                  r == Ok(None) && Seen(s', k) == Ok(Some(e)) && !HandedOut(s', k) && OthersKept(s, s', k))
  {
    var f, k := s.frames[Top(s) - 1], KeyOf(e);
    KeptFromFrame(s, f.(view := f.view[k := e], touched := f.touched + {k}), k);
  }

  /** Loading answers what asking answers and hands it out for writing; it is an error
      exactly if the key is handed out, and a missing key changes nothing. */
  lemma {:induction false} LoadLaw(s: Stack, k: LedgerKey, e: LedgerEntry)
    requires Editable(s) && KeyOf(e) == k
    ensures var s', r := After(s, Op.Load(k)), Result(s, Op.Load(k));
            && (HandedOut(s, k) <==> r.Failed?)
            && (HandedOut(s, k) ==> r == Failed(KeyActive) && s' == s)
            && (!HandedOut(s, k) ==> r == Seen(s, k) == Seen(s', k))
            && (!HandedOut(s, k) && !Exists(s, k) ==> s' == s)
            && (!HandedOut(s, k) && Exists(s, k) ==> HandedOut(s', k) && Writable(s', e) && OthersKept(s, s', k))
  {
    var f := s.frames[Top(s) - 1];
    KeptFromFrame(s, f.(touched := f.touched + {k}, active := f.active[k := true]), k);
  }

  /** The same, but nothing can be written and the transaction does not hold the entry. */
  lemma {:induction false} LoadWithoutRecordLaw(s: Stack, k: LedgerKey, e: LedgerEntry)
    requires Editable(s) && KeyOf(e) == k
    ensures var op := Op.LoadWithoutRecord(k);
            var s', r := After(s, op), Result(s, op);
            && (HandedOut(s, k) <==> r.Failed?)
            && (HandedOut(s, k) ==> r == Failed(KeyActive) && s' == s)
            && (!HandedOut(s, k) ==> r == Seen(s, k) == Seen(s', k))
            && (!HandedOut(s, k) && !Exists(s, k) ==> s' == s)
            && (!HandedOut(s, k) && Exists(s, k) ==> HandedOut(s', k) && !Writable(s', e) && OthersKept(s, s', k))
            && s'.frames[Top(s) - 1].touched == s.frames[Top(s) - 1].touched
  {
    var f := s.frames[Top(s) - 1];
    KeptFromFrame(s, f.(active := f.active[k := false]), k);
  }

  /** A missing key cannot be erased; an erased one is gone and no longer handed out. */
  lemma {:induction false} EraseLaw(s: Stack, k: LedgerKey)
    requires Editable(s)
    ensures var s', r := After(s, Op.Erase(k)), Result(s, Op.Erase(k));
            && (Exists(s, k) <==> r.Ok?)
            && (!Exists(s, k) ==> r == Failed(KeyMissing) && s' == s)
            && (Exists(s, k) ==> r == Ok(None) && Seen(s', k) == Ok(None) && !HandedOut(s', k) && OthersKept(s, s', k))
  {
    var f := s.frames[Top(s) - 1];
    KeptFromFrame(s, f.(view := f.view - {k}, touched := f.touched - {k}, active := f.active - {k}), k);
  }

  /** Erasing blindly never fails. */
  lemma {:induction false} EraseWithoutLoadingLaw(s: Stack, k: LedgerKey)
    requires Editable(s)
    ensures var op := Op.EraseWithoutLoading(k);
            var s' := After(s, op);
            Result(s, op) == Ok(None) && Seen(s', k) == Ok(None) && !HandedOut(s', k) && OthersKept(s, s', k)
  {
    var f := s.frames[Top(s) - 1];
    var f' := f.(view := f.view - {k}, touched := f.touched - {k}, active := f.active - {k}, exact := false);
    KeptFromFrame(s, f', k);
  }

  /** But from then on the transaction cannot give its exact changes. */
  lemma {:induction false} BlindLaw(s: Stack, k: LedgerKey)
    requires Editable(s)
    ensures var s' := After(s, Op.EraseWithoutLoading(k));
            Result(s', Op.Seal(true)) == Failed(NotExact) && Result(s', Op.Seal(false)) == Ok(None)
  {
  }

  /** Every other edit leaves a transaction as exact as it was. */
  lemma {:induction false} ExactLaw(s: Stack, op: Op)
    requires Editable(s)
    requires op.Create? || op.CreateOrUpdateWithoutLoading? || op.Load? || op.LoadWithoutRecord? || op.Erase?
             || op.Assign? || op.Deactivate? || op.LoadHeader? || op.AssignHeader? || op.DeactivateHeader?
    ensures Result(After(s, op), Op.Seal(true)) == Result(s, Op.Seal(true))
  {
  }

  // ----- What was handed out -----

  /** Writing changes the entry that is seen, and works just for what may be written. */
  lemma {:induction false} AssignLaw(s: Stack, e: LedgerEntry)
    requires Editable(s)
    ensures var k, s', r := KeyOf(e), After(s, Op.Assign(e)), Result(s, Op.Assign(e));
            && (r.Failed? ==> r == Failed(NotActive) && s' == s)
            && (r.Ok? ==> Seen(s', k) == Ok(Some(e)) && HandedOut(s', k) && Writable(s', e) && OthersKept(s, s', k))
  {
    var f := s.frames[Top(s) - 1];
    KeptFromFrame(s, f.(view := f.view[KeyOf(e) := e]), KeyOf(e));
  }

  /** What is given back is no longer handed out, and stays as it is. */
  lemma {:induction false} DeactivateLaw(s: Stack, k: LedgerKey)
    requires Editable(s)
    ensures var s', r := After(s, Op.Deactivate(k)), Result(s, Op.Deactivate(k));
            && (r.Failed? ==> r == Failed(NotActive) && s' == s)
            && (r.Ok? ==> !HandedOut(s', k) && Seen(s', k) == Seen(s, k) && OthersKept(s, s', k))
  {
    var f := s.frames[Top(s) - 1];
    KeptFromFrame(s, f.(active := f.active - {k}), k);
  }

  /** The header is handed out at most once at a time, is written only while it is, and
      is not otherwise changed by edits. */
  lemma {:induction false} HeaderLaw(s: Stack, h: Header)
    requires Editable(s)
    ensures var n, loaded := Top(s), After(s, Op.LoadHeader);
            && (Result(s, Op.LoadHeader) == Failed(HeaderActive) <==> Result(s, Op.DeactivateHeader).Ok?)
            && (Result(s, Op.LoadHeader).Ok? ==> Result(loaded, Op.DeactivateHeader).Ok?)
            && (Result(s, Op.AssignHeader(h)).Ok? <==> Result(s, Op.DeactivateHeader).Ok?)
            && After(s, Op.AssignHeader(h)).frames[n - 1].header ==
               (if Result(s, Op.DeactivateHeader).Ok? then h else s.frames[n - 1].header)
            && !Result(After(s, Op.DeactivateHeader), Op.DeactivateHeader).Ok?
            && loaded.frames[n - 1].header == After(s, Op.DeactivateHeader).frames[n - 1].header ==
               s.frames[n - 1].header
            && (forall k :: Seen(loaded, k) == Seen(After(s, Op.AssignHeader(h)), k) == Seen(s, k))
  {
  }

  // ----- Children -----

  /** While a transaction has a child, nothing but asking, rolling back and giving back
      reaches it, and there is nothing to give back. */
  lemma {:induction false} ParentLaw(s: Stack, at: nat, op: Op)
    requires 0 < at < |s.frames| && OuterIdle(s.frames)
    requires !op.Get? && !op.Rollback?
    ensures Step(s, at, op).0 == s && Step(s, at, op).1.Failed?
  {
  }

  /** A child starts with the same entries and header and nothing handed out; what its
      parent has handed out is withdrawn. At the root there is one child at most. */
  lemma {:induction false} OpenLaw(s: Stack, stamps: bool, k: LedgerKey)
    requires Editable(s) || s.frames == []
    ensures var s' := After(s, Op.Open(stamps));
            && Result(s, Op.Open(stamps)) == Ok(None) && Top(s') == Top(s) + 1 && Editable(s')
            && Seen(s', k) == Seen(s, k) && !HandedOut(s', k) && Result(s', Op.LoadHeader).Ok?
            && s'.frames[Top(s)].header == (if s.frames == [] then s.header else s.frames[Top(s) - 1].header)
            && s'.store == s.store && s'.header == s.header
            && (Top(s) > 0 ==>
                  Step(s', Top(s), Op.Deactivate(k)).1.Failed? && Step(s', Top(s), Op.Get(k)).1 == Seen(s, k))
            && Step(s', 0, Op.Open(stamps)).1 == Failed(HasChild)
  {
  }

  /** A transaction that is rolled back, with everything inside it, leaves the one
      around it as it is. */
  lemma {:induction false} RollbackLaw(s: Stack, at: nat, i: nat)
    requires 0 < at <= |s.frames| && i < at - 1
    ensures var s' := Step(s, at, Op.Rollback).0;
            && Step(s, at, Op.Rollback).1 == Ok(None) && Top(s') == at - 1
            && s'.frames[i] == s.frames[i] && s'.store == s.store && s'.header == s.header
  {
  }

  // ----- Sealing and committing -----

  /** The entry that a key has once the transaction is sealed: one that it holds itself
      is stamped with its ledger. */
  function SealedEntry(f: Frame, k: LedgerKey, e: LedgerEntry): (r: LedgerEntry) {
    if f.stamps && k in f.touched then LedgerEntry(f.header.ledgerSeq, e.data) else e
  }

  /** Sealing stamps once and ends all editing; asking goes on. */
  lemma {:induction false} SealLaw(s: Stack, needExact: bool, op: Op, k: LedgerKey)
    requires Editable(s) && (needExact ==> s.frames[Top(s) - 1].exact)
    requires op.Create? || op.CreateOrUpdateWithoutLoading? || op.Load? || op.LoadWithoutRecord? || op.Erase?
             || op.EraseWithoutLoading? || op.LoadHeader? || op.Open?
    ensures var f, s' := s.frames[Top(s) - 1], After(s, Op.Seal(needExact));
            && Result(s, Op.Seal(needExact)) == Ok(None)
            && Result(s', op) == Failed(IsSealed) && After(s', op) == s' && After(s', Op.Seal(needExact)) == s'
            && !HandedOut(s', k) && (Exists(s', k) <==> Exists(s, k))
            && (Exists(s, k) ==> Seen(s', k) == Ok(Some(SealedEntry(f, k, Seen(s, k).entry.value))))
  {
  }

  /** Committing into a parent: it then answers as the sealed child did. */
  lemma {:induction false} CommitLaw(s: Stack, k: LedgerKey)
    requires Editable(s) && Top(s) >= 2
    ensures var n, f, s' := Top(s), s.frames[Top(s) - 1], After(s, Op.Commit);
            && Result(s, Op.Commit) == Ok(None) && Top(s') == n - 1
            && s'.frames[..n - 2] == s.frames[..n - 2] && s'.store == s.store && s'.header == s.header
            && s'.frames[n - 2].header == f.header
            && (Exists(s', k) <==> Exists(s, k))
            && (Exists(s, k) ==> Seen(s', k) == Ok(Some(SealedEntry(f, k, Seen(s, k).entry.value))))
            && (k in s'.frames[n - 2].touched <==>
                  k in f.touched || (k in s.frames[n - 2].touched && Exists(s, k)))
            && (s'.frames[n - 2].exact <==> f.exact && s.frames[n - 2].exact)
  {
  }

  /** Committing into the root: the store then has what the sealed child had. */
  lemma {:induction false} CommitToRootLaw(s: Stack, k: LedgerKey)
    requires Editable(s) && Top(s) == 1
    ensures var f, s' := s.frames[0], After(s, Op.Commit);
            && Result(s, Op.Commit) == Ok(None) && s'.frames == [] && s'.header == f.header
            && (k in s'.store <==> Exists(s, k))
            && (Exists(s, k) ==> s'.store[k] == SealedEntry(f, k, Seen(s, k).entry.value))
  {
  }

  /** Just creating, updating, loading and committing a child make a transaction hold an
      entry, and just erasing ends it. */
  lemma {:induction false} HeldLaw(s: Stack, op: Op, k: LedgerKey)
    requires Editable(s) && !op.Commit? && !op.Rollback? && !op.Open?
    ensures var f, f' := s.frames[Top(s) - 1], After(s, op).frames[Top(s) - 1];
            k in f'.touched <==>
            || (op.Create? && KeyOf(op.entry) == k && Result(s, op).Ok?)
            || (op.CreateOrUpdateWithoutLoading? && KeyOf(op.entry) == k && Result(s, op).Ok?)
            || (op.Load? && op.key == k && Result(s, op).Ok? && Exists(s, k))
            || (k in f.touched && !((op.Erase? || op.EraseWithoutLoading?) && op.key == k && Result(s, op).Ok?))
  {
  }
}
