/** The order in which a transaction set is applied (sortForApply in
    src/herder/TxSetFrame.cpp): by place within the account, then by hashes mixed
    with the hash of the set. */
module TxSetApply {
  import opened Order
  import opened LedgerTypes
  import opened TxSet

  /** How many of the account's transactions have a lower sequence number. */
  ghost function Rank(txs: seq<Tx>, t: Tx): (n: nat) {
    |Lower(txs, t)|
  }

  ghost function Lower(txs: seq<Tx>, t: Tx): (s: set<Tx>) {
    set u | u in txs && u.source == t.source && u.seqNum < t.seqNum
  }

  /** Transactions of an account differ in sequence number. */
  ghost predicate DistinctSeqs(txs: seq<Tx>) {
    forall t, u :: t in txs && u in txs && t.source == u.source && t.seqNum == u.seqNum ==> t == u
  }

  ghost predicate DistinctHashes(txs: seq<Tx>) {
    forall t, u :: t in txs && u in txs && t.fullHash == u.fullHash ==> t == u
  }

  /** Bitwise exclusive or, as lessThanXored in src/util/types.cpp uses it. */
  function Xor(a: nat, b: nat): (r: nat)
    decreases a + b
  {
    if a == 0 && b == 0 then 0 else 2 * Xor(a / 2, b / 2) + (a % 2 + b % 2) % 2
  }

  lemma {:induction false} XorInjective(x: nat, a: nat, b: nat)
    requires Xor(x, a) == Xor(x, b)
    ensures a == b
    decreases x + a + b
  {
    if x != 0 || a != 0 || b != 0 {
      XorSplit(x, a);
      XorSplit(x, b);
      XorInjective(x / 2, a / 2, b / 2);
    }
  }

  lemma {:induction false} XorSplit(x: nat, a: nat)
    ensures Xor(x, a) / 2 == Xor(x / 2, a / 2) && Xor(x, a) % 2 == (x % 2 + a % 2) % 2
  {
  }

  /** By rank within the account, then by the mixed hash. */
  ghost predicate ApplyBefore(txs: seq<Tx>, setHash: Hash, t: Tx, u: Tx) {
    Rank(txs, t) < Rank(txs, u) || (Rank(txs, t) == Rank(txs, u) && Xor(setHash, t.fullHash) < Xor(setHash, u.fullHash))
  }

  ghost predicate InApplyOrder(txs: seq<Tx>, setHash: Hash, r: seq<Tx>) {
    forall i, j :: 0 <= i < j < |r| ==> ApplyBefore(txs, setHash, r[i], r[j])
  }

  ghost predicate SameTxs(a: seq<Tx>, b: seq<Tx>) {
    forall t :: t in a <==> t in b
  }

  // ----- What the order means -----

  lemma {:induction false} RankGrows(txs: seq<Tx>, t: Tx, u: Tx)
    requires t in txs && t.source == u.source && t.seqNum < u.seqNum
    ensures Rank(txs, t) < Rank(txs, u)
  {
    assert Lower(txs, t) + {t} <= Lower(txs, u);
    SubsetSize(Lower(txs, t) + {t}, Lower(txs, u));
  }

  /** Each account's transactions are applied in order of sequence number. */
  lemma {:induction false} AccountsAscend(txs: seq<Tx>, setHash: Hash, r: seq<Tx>, i: nat, j: nat)
    requires InApplyOrder(txs, setHash, r) && SameTxs(r, txs) && DistinctSeqs(txs)
    requires i < j < |r| && r[i].source == r[j].source
    ensures r[i].seqNum < r[j].seqNum
  {
    assert r[i] in txs && r[j] in txs;
    assert ApplyBefore(txs, setHash, r[i], r[j]);
    if r[j].seqNum < r[i].seqNum {
      RankGrows(txs, r[j], r[i]);
      assert false;
    }
  }

  lemma {:induction false} SameRank(a: seq<Tx>, b: seq<Tx>, t: Tx)
    requires SameTxs(a, b)
    ensures Rank(a, t) == Rank(b, t)
  {
    assert Lower(a, t) == Lower(b, t);
  }

  /** The order depends on the set of transactions only. */
  lemma {:induction false} ApplyOrderCanonical(a: seq<Tx>, b: seq<Tx>, setHash: Hash, r: seq<Tx>, s: seq<Tx>)
    requires SameTxs(a, b) && SameTxs(r, a) && SameTxs(s, b)
    requires InApplyOrder(a, setHash, r) && InApplyOrder(b, setHash, s)
    ensures r == s
  {
    var less := (t, u) => ApplyBefore(a, setHash, t, u);
    forall i, j | 0 <= i < j < |s|
      ensures less(s[i], s[j])
    {
      assert ApplyBefore(b, setHash, s[i], s[j]);
      SameRank(a, b, s[i]);
      SameRank(a, b, s[j]);
    }
    forall i, j | 0 <= i < j < |r|
      ensures less(r[i], r[j])
    {
      assert ApplyBefore(a, setHash, r[i], r[j]);
    }
    StrictUnique(less, r, s);
  }

  /** The list that the set's own hash is taken of depends on the set only. */
  lemma {:induction false} HashOrderCanonical(a: seq<Tx>, b: seq<Tx>)
    requires SameTxs(a, b) && DistinctHashes(a) && NoRepeats(a) && NoRepeats(b) && HashSorted(a) && HashSorted(b)
    ensures a == b
  {
    forall i, j | 0 <= i < j < |a|
      ensures HashLess(a[i], a[j])
    {
      assert a[i] in a && a[j] in a && !HashLess(a[j], a[i]);
    }
    forall i, j | 0 <= i < j < |b|
      ensures HashLess(b[i], b[j])
    {
      assert b[i] in a && b[j] in a && !HashLess(b[j], b[i]);
    }
    StrictUnique(HashLess, a, b);
  }

  // ----- The program -----

  ghost function FromAccount(s: seq<Tx>, a: AccountID): (r: set<Tx>) {
    set u | u in s && u.source == a
  }

  /** In the list sorted by sequence number, a transaction's rank is the number
      of its account's transactions before it. */
  lemma {:induction false} RankIsCount(txs: seq<Tx>, s: seq<Tx>, i: nat)
    requires SameTxs(s, txs) && NoRepeats(s) && SortedBy(SeqLess, s) && DistinctSeqs(txs) && i < |s|
    ensures FromAccount(s[..i], s[i].source) == Lower(txs, s[i])
  {
    var t := s[i];
    forall u
      ensures u in FromAccount(s[..i], t.source) <==> u in Lower(txs, t)
    {
      if u in FromAccount(s[..i], t.source) {
        var j :| 0 <= j < i && s[..i][j] == u;
        assert !SeqLess(s[i], s[j]) && s[j] in s && s[i] in s;
      }
      if u in Lower(txs, t) {
        var j :| 0 <= j < |s| && s[j] == u;
        assert s[..i][j] == u;
      }
    }
  }

  ghost predicate Counted(s: seq<Tx>, counts: map<AccountID, nat>) {
    forall a :: (if a in counts then counts[a] else 0) == |FromAccount(s, a)|
  }

  /** batch[b] has exactly the transactions of rank b seen so far. */
  ghost predicate Batched(txs: seq<Tx>, s: seq<Tx>, batches: seq<seq<Tx>>) {
    && (forall b :: 0 <= b < |batches| ==> NoRepeats(batches[b]))
    && (forall b, t :: 0 <= b < |batches| && t in batches[b] ==> t in s && Rank(txs, t) == b)
    && (forall t :: t in s ==> Rank(txs, t) < |batches| && t in batches[Rank(txs, t)])
  }

  lemma {:induction false} CountMore(s: seq<Tx>, counts: map<AccountID, nat>, t: Tx)
    requires Counted(s, counts) && t !in s
    ensures Counted(s + [t], counts[t.source := (if t.source in counts then counts[t.source] else 0) + 1])
  {
    forall a
      ensures FromAccount(s + [t], a) == FromAccount(s, a) + (if a == t.source then {t} else {})
    {
    }
  }

  function Resized(batches: seq<seq<Tx>>, n: nat): (r: seq<seq<Tx>>)
    requires n >= |batches|
    ensures |r| == n
  {
    batches + seq(n - |batches|, _ => [])
  }

  lemma {:induction false} ResizeKeeps(txs: seq<Tx>, s: seq<Tx>, batches: seq<seq<Tx>>, n: nat)
    requires Batched(txs, s, batches) && n >= |batches|
    ensures Batched(txs, s, Resized(batches, n))
  {
  }

  lemma {:induction false} BatchMore(txs: seq<Tx>, s: seq<Tx>, batches: seq<seq<Tx>>, t: Tx)
    requires Batched(txs, s, batches) && t !in s && Rank(txs, t) < |batches|
    ensures var b := Rank(txs, t); Batched(txs, s + [t], batches[b := batches[b] + [t]])
  {
  }

  /** The batches, from the list sorted by sequence number. */
  method BuildBatches(s: seq<Tx>, ghost txs: seq<Tx>) returns (batches: seq<seq<Tx>>)
    requires SameTxs(s, txs) && NoRepeats(s) && SortedBy(SeqLess, s) && DistinctSeqs(txs)
    ensures Batched(txs, s, batches) && batches != []
  {
    batches := [[], [], [], []];
    var counts: map<AccountID, nat> := map[];
    for i := 0 to |s|
      invariant Counted(s[..i], counts) && Batched(txs, s[..i], batches) && batches != []
    {
      var tx := s[i];
      assert tx !in s[..i];
      assert s[..i + 1] == s[..i] + [tx];
      RankIsCount(txs, s, i);
      var v := if tx.source in counts then counts[tx.source] else 0;
      assert v == Rank(txs, tx);
      if v >= |batches| {
        ResizeKeeps(txs, s[..i], batches, v + 4);
        batches := Resized(batches, v + 4);
      }
      BatchMore(txs, s[..i], batches, tx);
      batches := batches[v := batches[v] + [tx]];
      CountMore(s[..i], counts, tx);
      counts := counts[tx.source := v + 1];
    }
    assert s[..|s|] == s;
  }

  predicate MixedLess(setHash: Hash, a: Tx, b: Tx) {
    Xor(setHash, a.fullHash) < Xor(setHash, b.fullHash)
  }

  function MixedOrder(setHash: Hash): (less: (Tx, Tx) -> bool) {
    (a, b) => MixedLess(setHash, a, b)
  }

  lemma {:induction false} MixedWeak(setHash: Hash)
    ensures StrictWeak(MixedOrder(setHash))
  {
    var less := MixedOrder(setHash);
    forall a: Tx, b: Tx, c: Tx
      ensures !less(a, a)
      ensures less(a, b) && less(b, c) ==> less(a, c)
      ensures !less(a, b) && !less(b, c) ==> !less(a, c)
    {
    }
  }

  method SortBatch(batch: seq<Tx>, setHash: Hash, ghost txs: seq<Tx>) returns (r: seq<Tx>)
    requires NoRepeats(batch) && DistinctHashes(txs) && forall t :: t in batch ==> t in txs
    ensures SameTxs(r, batch)
    ensures forall i, j :: 0 <= i < j < |r| ==> MixedLess(setHash, r[i], r[j])
  {
    MixedWeak(setHash);
    SortSorted(MixedOrder(setHash), batch);
    r := Sort(MixedOrder(setHash), batch);
    forall t
      ensures t in r <==> t in batch
    {
      SameElements(r, batch, t);
    }
    PermutationNoRepeats(batch, r);
    forall i, j | 0 <= i < j < |r|
      ensures MixedLess(setHash, r[i], r[j])
    {
      assert !MixedOrder(setHash)(r[j], r[i]);
      assert r[i] in batch && r[j] in batch && r[i] != r[j];
      if Xor(setHash, r[i].fullHash) == Xor(setHash, r[j].fullHash) {
        XorInjective(setHash, r[i].fullHash, r[j].fullHash);
      }
    }
  }

  /** The first n ranks have been put in order. */
  ghost predicate Laid(txs: seq<Tx>, setHash: Hash, n: nat, r: seq<Tx>) {
    && InApplyOrder(txs, setHash, r)
    && forall t :: t in r <==> t in txs && Rank(txs, t) < n
  }

  lemma {:induction false} LayBatch(txs: seq<Tx>, setHash: Hash, n: nat, r: seq<Tx>, batch: seq<Tx>)
    requires Laid(txs, setHash, n, r)
    requires forall t :: t in batch <==> t in txs && Rank(txs, t) == n
    requires forall i, j :: 0 <= i < j < |batch| ==> MixedLess(setHash, batch[i], batch[j])
    ensures Laid(txs, setHash, n + 1, r + batch)
  {
    var r' := r + batch;
    forall i, j | 0 <= i < j < |r'|
      ensures ApplyBefore(txs, setHash, r'[i], r'[j])
    {
      if j < |r| {
        assert ApplyBefore(txs, setHash, r[i], r[j]);
      } else {
        assert r'[j] == batch[j - |r|] && r'[j] in batch;
        if i < |r| {
          assert r[i] in r;
        } else {
          assert r'[i] == batch[i - |r|] && r'[i] in batch;
        }
      }
    }
  }

  /** The hash of a set: that of the previous ledger's hash and of the set's list in
      hash order. */
  ghost predicate IsContentsHash(sha: (Hash, seq<Tx>) -> Hash, previous: Hash, txs: seq<Tx>, h: Hash) {
    exists s :: multiset(s) == multiset(txs) && HashSorted(s) && h == sha(previous, s)
  }

  /** What a set is applied as: its transactions in the order of its own hash. */
  ghost predicate AppliedAs(sha: (Hash, seq<Tx>) -> Hash, previous: Hash, txs: seq<Tx>, h: Hash, r: seq<Tx>) {
    IsContentsHash(sha, previous, txs, h) && SameTxs(r, txs) && InApplyOrder(txs, h, r)
  }

  lemma {:induction false} HashedAs(sha: (Hash, seq<Tx>) -> Hash, previous: Hash, txs: seq<Tx>, h: Hash)
    returns (s: seq<Tx>)
    requires IsContentsHash(sha, previous, txs, h) && NoRepeats(txs)
    ensures SameTxs(s, txs) && NoRepeats(s) && HashSorted(s) && h == sha(previous, s)
  {
    s :| multiset(s) == multiset(txs) && HashSorted(s) && h == sha(previous, s);
    PermutationNoRepeats(txs, s);
    forall t
      ensures t in s <==> t in txs
    {
      SameElements(s, txs, t);
    }
  }

  /** However two nodes have the same set listed, they get the same hash for it and
      apply it in the same order. */
  lemma {:induction false} SetDecidesOrder(sha: (Hash, seq<Tx>) -> Hash, previous: Hash, a: seq<Tx>, b: seq<Tx>,
                                           g: Hash, h: Hash, r: seq<Tx>, s: seq<Tx>)
    requires SameTxs(a, b) && NoRepeats(a) && NoRepeats(b) && DistinctHashes(a)
    requires AppliedAs(sha, previous, a, g, r) && AppliedAs(sha, previous, b, h, s)
    ensures g == h && r == s
  {
    var x := HashedAs(sha, previous, a, g);
    var y := HashedAs(sha, previous, b, h);
    HashOrderCanonical(x, y);
    ApplyOrderCanonical(a, b, g, r, s);
  }

  /** In numbers: an account's transactions by ascending sequence number, and
      transactions with equally many earlier ones of their accounts by ascending
      hash, the set's hash mixed in. */
  lemma {:induction false} OrderMeans(txs: seq<Tx>, setHash: Hash, r: seq<Tx>)
    requires InApplyOrder(txs, setHash, r) && SameTxs(r, txs) && DistinctSeqs(txs)
    ensures forall i, j :: 0 <= i < j < |r| && r[i].source == r[j].source ==> r[i].seqNum < r[j].seqNum
    ensures forall i, j :: 0 <= i < j < |r| && Rank(r, r[i]) == Rank(r, r[j]) ==>
                             Xor(setHash, r[i].fullHash) < Xor(setHash, r[j].fullHash)
  {
    forall i, j | 0 <= i < j < |r|
      ensures r[i].source == r[j].source ==> r[i].seqNum < r[j].seqNum
      ensures Rank(r, r[i]) == Rank(r, r[j]) ==> Xor(setHash, r[i].fullHash) < Xor(setHash, r[j].fullHash)
    {
      if r[i].source == r[j].source {
        AccountsAscend(txs, setHash, r, i, j);
      }
      SameRank(r, txs, r[i]);
      SameRank(r, txs, r[j]);
      assert ApplyBefore(txs, setHash, r[i], r[j]);
    }
  }

  /** sortForApply: the transactions of the set in apply order. */
  method SortForApply(frame: TxSetFrame) returns (r: seq<Tx>, ghost setHash: Hash)
    requires frame.Valid()
    requires NoRepeats(frame.transactions) && DistinctSeqs(frame.transactions) && DistinctHashes(frame.transactions)
    modifies frame`transactions, frame`hash, frame`hashIsValid
    ensures frame.Valid() && multiset(frame.transactions) == multiset(old(frame.transactions)) && NoRepeats(r)
    ensures AppliedAs(frame.sha, frame.previousLedgerHash, old(frame.transactions), setHash, r)
    ensures forall i, j :: 0 <= i < j < |r| && r[i].source == r[j].source ==> r[i].seqNum < r[j].seqNum
    ensures forall i, j :: 0 <= i < j < |r| && Rank(r, r[i]) == Rank(r, r[j]) ==>
                             Xor(setHash, r[i].fullHash) < Xor(setHash, r[j].fullHash)
  {
    ghost var txs := frame.transactions;
    var s := SortBySeq(frame.transactions);
    PermutationNoRepeats(txs, s);
    forall t
      ensures t in s <==> t in txs
    {
      SameElements(s, txs, t);
    }
    var batches := BuildBatches(s, txs);
    r, setHash := LayBatches(frame, batches, txs, s);
    OrderedNoRepeats(txs, setHash, r);
    OrderMeans(txs, setHash, r);
  }

  lemma {:induction false} NothingLaid(txs: seq<Tx>, g: Hash, h: Hash, n: nat, r: seq<Tx>)
    requires Laid(txs, g, n, r) && (n > 0 ==> g == h)
    ensures Laid(txs, h, n, r)
  {
    assert r == [] || r[0] in r;
  }

  lemma {:induction false} AllLaid(txs: seq<Tx>, s: seq<Tx>, batches: seq<seq<Tx>>, setHash: Hash, r: seq<Tx>)
    requires Laid(txs, setHash, |batches|, r) && Batched(txs, s, batches) && SameTxs(s, txs)
    ensures SameTxs(r, txs) && InApplyOrder(txs, setHash, r)
  {
  }

  /** One batch, in order. */
  method LayNext(batches: seq<seq<Tx>>, setHash: Hash, b: nat, r: seq<Tx>, ghost txs: seq<Tx>, ghost s: seq<Tx>)
    returns (r': seq<Tx>)
    requires b < |batches| && Batched(txs, s, batches) && SameTxs(s, txs) && DistinctHashes(txs)
    requires Laid(txs, setHash, b, r)
    ensures Laid(txs, setHash, b + 1, r')
  {
    var batch := SortBatch(batches[b], setHash, txs);
    LayBatch(txs, setHash, b, r, batch);
    r' := r + batch;
  }

  /** The loop over the batches; the hash is asked for in each round. */
  method LayBatches(frame: TxSetFrame, batches: seq<seq<Tx>>, ghost txs: seq<Tx>, ghost s: seq<Tx>)
    returns (r: seq<Tx>, ghost setHash: Hash)
    requires frame.Valid() && frame.transactions == txs && DistinctHashes(txs) && SameTxs(s, txs)
    requires Batched(txs, s, batches) && batches != []
    modifies frame`transactions, frame`hash, frame`hashIsValid
    ensures frame.Valid() && multiset(frame.transactions) == multiset(txs)
    ensures AppliedAs(frame.sha, frame.previousLedgerHash, txs, setHash, r)
  {
    r, setHash := [], 0;
    for b := 0 to |batches|
      invariant frame.Valid() && multiset(frame.transactions) == multiset(txs)
      invariant b > 0 ==> frame.hashIsValid && frame.hash == setHash
      invariant b > 0 ==> IsContentsHash(frame.sha, frame.previousLedgerHash, txs, setHash)
      invariant Laid(txs, setHash, b, r)
    {
      var h := frame.GetContentsHash();
      NothingLaid(txs, setHash, h, b, r);
      setHash := h;
      r := LayNext(batches, h, b, r, txs, s);
    }
    AllLaid(txs, s, batches, setHash, r);
  }

  lemma {:induction false} OrderedNoRepeats(txs: seq<Tx>, setHash: Hash, r: seq<Tx>)
    requires InApplyOrder(txs, setHash, r)
    ensures NoRepeats(r)
  {
    forall i, j | 0 <= i < j < |r|
      ensures r[i] != r[j]
    {
      assert ApplyBefore(txs, setHash, r[i], r[j]);
    }
  }
}
