/** Applying a bucket file to the store in batches
    (src/bucket/BucketApplicator.cpp). A full batch ends without stepping past
    its last entry, so the next one applies that entry again. */
module BucketApplicator {
  import opened BucketFile
  import opened LedgerTypes
  import T = TxnStack
  import opened BulkApply
  import opened LedgerTxn
  import R = BucketListRuns

  type Entry = BucketEntry<LedgerKey, LedgerEntry>

  // ----- What applying a file means -----

  function ApplyEntry(m: T.Entries, e: Entry): (r: T.Entries) {
    if e.slot.Live? then m[e.key := e.slot.value] else m - {e.key}
  }

  function ApplyFile(m: T.Entries, f: seq<Entry>): (r: T.Entries)
    decreases |f|
  {
    if f == [] then m else ApplyFile(ApplyEntry(m, f[0]), f[1..])
  }

  lemma {:induction false} ApplyConcat(m: T.Entries, f: seq<Entry>, g: seq<Entry>)
    ensures ApplyFile(m, f + g) == ApplyFile(ApplyFile(m, f), g)
    decreases |f|
  {
    if f == [] {
      assert f + g == g;
    } else {
      ApplyConcat(ApplyEntry(m, f[0]), f[1..], g);
      assert (f + g)[1..] == f[1..] + g;
    }
  }

  lemma {:induction false} ApplySingle(m: T.Entries, e: Entry)
    ensures ApplyFile(m, [e]) == ApplyEntry(m, e)
  {
    assert [e][1..] == [];
  }

  lemma {:induction false} ApplyTwice(m: T.Entries, e: Entry)
    ensures ApplyEntry(ApplyEntry(m, e), e) == ApplyEntry(m, e)
  {
  }

  lemma {:induction false} ApplyBatchEntry(m: T.Entries, b: Bucket<LedgerKey, LedgerEntry>, e: Entry)
    ensures R.ApplyBatch(m, b[e.key := e.slot]) == ApplyEntry(R.ApplyBatch(m, b), e)
  {
  }

  /** Applying a file entry by entry is applying the bucket it denotes. */
  lemma {:induction false} ApplyFileIsBatch(m: T.Entries, f: seq<Entry>)
    ensures ApplyFile(m, f) == R.ApplyBatch(m, Contents(f))
  {
    if f == [] {
    } else {
      var init, e := f[..|f| - 1], f[|f| - 1];
      ApplyFileIsBatch(m, init);
      ApplyBatchEntry(m, Contents(init), e);
      assert f == init + [e];
      ApplyConcat(m, init, [e]);
      ApplySingle(ApplyFile(m, init), e);
    }
  }

  /** Resuming at the entry that was applied last does no harm. */
  lemma {:induction false} ResumeAt(m: T.Entries, f: seq<Entry>, from: nat, last: nat)
    requires from <= last < |f|
    ensures ApplyFile(ApplyFile(m, f[from..last + 1]), f[last..]) == ApplyFile(m, f[from..])
  {
    var e, before, rest := f[last], f[from..last], f[last + 1..];
    var m' := ApplyFile(m, before);
    assert f[from..last + 1] == before + [e];
    assert f[last..] == [e] + rest;
    assert f[from..] == before + ([e] + rest);
    ApplyConcat(m, before, [e]);
    ApplyConcat(m, before, [e] + rest);
    ApplySingle(m', e);
    ApplyTwice(m', e);
    ApplyConcat(ApplyEntry(m', e), [e], rest);
    ApplySingle(ApplyEntry(m', e), e);
    ApplyConcat(m', [e], rest);
  }

  predicate Keyed(f: seq<Entry>) {
    forall i :: 0 <= i < |f| ==> f[i].slot.Live? ==> KeyOf(f[i].slot.value) == f[i].key
  }

  /** The one open transaction, over a store. */
  function Working(store: T.Entries, header: T.Header, view: T.Entries, touched: set<LedgerKey>,
                   exact: bool): (s: T.Stack) {
    T.Stack(store, header, [T.Frame(view, touched, map[], false, header, false, false, exact)])
  }

  predicate IsWorking(s: T.Stack, store: T.Entries, header: T.Header, view: T.Entries) {
    && |s.frames| == 1
    && s == Working(store, header, view, s.frames[0].touched, s.frames[0].exact)
  }

  method ApplyOne(l: LedgerTxns, e: Entry, ghost store: T.Entries, ghost header: T.Header, ghost view: T.Entries)
    requires l.Valid() && IsWorking(l.Abs(), store, header, view)
    requires e.slot.Live? ==> KeyOf(e.slot.value) == e.key
    modifies l
    ensures l.Valid() && IsWorking(l.Abs(), store, header, ApplyEntry(view, e))
  {
    var r;
    if e.slot.Live? {
      r := l.Perform(1, T.Op.CreateOrUpdateWithoutLoading(e.slot.value));
    } else {
      r := l.Perform(1, T.Op.EraseWithoutLoading(e.key));
      ghost var none: map<LedgerKey, bool> := map[];
      assert none - {e.key} == none;
    }
  }

  class Applicator {
    const file: seq<Entry>
    var pos: nat

    constructor (file: seq<Entry>)
      ensures this.file == file && pos == 0
    {
      this.file := file;
      pos := 0;
    }

    predicate More()
      reads this
    {
      pos < |file|
    }

    /** One batch. Whatever is left to apply afterwards completes the same
        change, and the position has moved on. */
    method Advance(l: LedgerTxns) returns (count: nat)
      requires l.Valid() && l.txns == [] && Keyed(file) && More()
      modifies this, l
      ensures l.Valid() && l.txns == [] && l.header == old(l.header)
      ensures old(pos) < pos <= |file|
      ensures count == if |file| - old(pos) > 0xfff then 0x1000 else |file| - old(pos)
      ensures pos == if |file| - old(pos) > 0xfff then old(pos) + 0xfff else |file|
      ensures l.store == ApplyFile(old(l.store), file[old(pos)..old(pos) + count])
      ensures ApplyFile(l.store, file[pos..]) == ApplyFile(old(l.store), file[old(pos)..])
    {
      ghost var store, header := l.store, l.header;
      Begin(l);
      var end, full := ApplyEntries(l, file, pos, store, header);
      Finish(l, store, header, ApplyFile(store, file[pos..end]));
      count := end - pos;
      if full {
        ResumeAt(store, file, pos, end - 1);
        pos := end - 1;
      } else {
        assert file[end..] == [] && file[pos..end] == file[pos..];
        pos := end;
      }
    }
  }

  /** The loop of a batch: it stops at the end of the file, or right after one
      entry more than the batch size. */
  method ApplyEntries(l: LedgerTxns, file: seq<Entry>, from: nat, ghost store: T.Entries, ghost header: T.Header)
    returns (end: nat, full: bool)
    requires l.Valid() && from < |file| && Keyed(file) && IsWorking(l.Abs(), store, header, store)
    modifies l
    ensures l.Valid() && from < end <= |file|
    ensures IsWorking(l.Abs(), store, header, ApplyFile(store, file[from..end]))
    ensures full ==> end == from + LEDGER_ENTRY_BATCH_COMMIT_SIZE + 1
    ensures !full ==> end == |file| <= from + LEDGER_ENTRY_BATCH_COMMIT_SIZE
  {
    end := from;
    assert file[from..from] == [];
    while end < |file|
      invariant from <= end <= |file| && l.Valid() && end - from <= LEDGER_ENTRY_BATCH_COMMIT_SIZE
      invariant IsWorking(l.Abs(), store, header, ApplyFile(store, file[from..end]))
    {
      ApplyOne(l, file[end], store, header, ApplyFile(store, file[from..end]));
      AppliedOne(store, file, from, end);
      end := end + 1;
      if end - from > LEDGER_ENTRY_BATCH_COMMIT_SIZE {
        return end, true;
      }
    }
    return end, false;
  }

  lemma {:induction false} AppliedOne(m: T.Entries, f: seq<Entry>, from: nat, pos: nat)
    requires from <= pos < |f|
    ensures ApplyFile(m, f[from..pos + 1]) == ApplyEntry(ApplyFile(m, f[from..pos]), f[pos])
  {
    assert f[from..pos + 1] == f[from..pos] + [f[pos]];
    ApplyConcat(m, f[from..pos], [f[pos]]);
    ApplySingle(ApplyFile(m, f[from..pos]), f[pos]);
  }

  method Begin(l: LedgerTxns)
    requires l.Valid() && l.txns == []
    modifies l
    ensures l.Valid() && IsWorking(l.Abs(), old(l.store), old(l.header), old(l.store))
  {
    var r := l.Perform(0, T.Op.Open(false));
  }

  method Finish(l: LedgerTxns, ghost store: T.Entries, ghost header: T.Header, ghost view: T.Entries)
    requires l.Valid() && IsWorking(l.Abs(), store, header, view)
    modifies l
    ensures l.Valid() && l.txns == [] && l.store == view && l.header == header
  {
    Unstamped(l.Abs().frames[0]);
    var r := l.Perform(1, T.Op.Commit);
    assert |l.txns| == |l.Abs().frames|;
  }

  lemma {:induction false} Unstamped(f: T.Frame)
    requires !f.stamps
    ensures T.Stamped(f) == f.view
  {
  }
}
