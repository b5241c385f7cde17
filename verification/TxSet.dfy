/** Building, checking and ordering a transaction set
    (src/herder/TxSetFrame.cpp). Transactions have distinct full hashes; the
    validity of one depends on the account's last sequence number only. */
module TxSet {
  import opened Order
  import opened LedgerTypes

  type Hash = nat

  datatype Tx = Tx(fullHash: Hash, source: AccountID, seqNum: nat, fee: int, minFee: nat)

  predicate HashLess(a: Tx, b: Tx) { a.fullHash < b.fullHash }

  predicate SeqLess(a: Tx, b: Tx) { a.seqNum < b.seqNum }

  /** What is known of the last closed ledger. */
  datatype Ledger = Ledger(hash: Hash, maxTxSetSize: nat, valid: (Tx, nat) -> bool, balance: AccountID -> int)

  /** A valid transaction raises the account's sequence number. */
  ghost predicate Rising(valid: (Tx, nat) -> bool) {
    forall t, lastSeq :: valid(t, lastSeq) ==> t.seqNum > lastSeq
  }

  // ----- Sorting -----

  lemma {:induction false} SeqLessWeak()
    ensures StrictWeak(SeqLess)
  {
    forall a: Tx, b: Tx, c: Tx
      ensures !SeqLess(a, a)
      ensures SeqLess(a, b) && SeqLess(b, c) ==> SeqLess(a, c)
      ensures !SeqLess(a, b) && !SeqLess(b, c) ==> !SeqLess(a, c)
    {
    }
  }

  lemma {:induction false} HashLessWeak()
    ensures StrictWeak(HashLess)
  {
    forall a: Tx, b: Tx, c: Tx
      ensures !HashLess(a, a)
      ensures HashLess(a, b) && HashLess(b, c) ==> HashLess(a, c)
      ensures !HashLess(a, b) && !HashLess(b, c) ==> !HashLess(a, c)
    {
    }
  }

  /** std::sort: some sorted rearrangement. */
  method SortBySeq(txs: seq<Tx>) returns (r: seq<Tx>)
    ensures multiset(r) == multiset(txs) && SortedBy(SeqLess, r)
  {
    SeqLessWeak();
    SortSorted(SeqLess, txs);
    r := Sort(SeqLess, txs);
  }

  method SortByHash(txs: seq<Tx>) returns (r: seq<Tx>)
    ensures multiset(r) == multiset(txs) && SortedBy(HashLess, r)
  {
    HashLessWeak();
    SortSorted(HashLess, txs);
    r := Sort(HashLess, txs);
  }

  // ----- An account's transactions -----

  function Of(txs: seq<Tx>, a: AccountID): (r: seq<Tx>) {
    if txs == [] then []
    else
      var last := txs[|txs| - 1];
      Of(txs[..|txs| - 1], a) + (if last.source == a then [last] else [])
  }

  lemma {:induction false} OfElements(txs: seq<Tx>, a: AccountID)
    ensures forall t :: t in Of(txs, a) <==> t in txs && t.source == a
    ensures NoRepeats(txs) ==> NoRepeats(Of(txs, a))
  {
    if txs != [] {
      var init, last := txs[..|txs| - 1], txs[|txs| - 1];
      OfElements(init, a);
      assert txs == init + [last];
      assert NoRepeats(txs) ==> NoRepeats(init) && last !in init;
    }
  }

  ghost predicate NoAccountRepeats(txs: seq<Tx>) {
    forall a :: NoRepeats(Of(txs, a))
  }

  /** A transaction that is repeated is repeated within its account. */
  lemma {:induction false} RepeatsWithinAccount(txs: seq<Tx>)
    ensures NoRepeats(txs) <==> NoAccountRepeats(txs)
  {
    if NoRepeats(txs) {
      forall a
        ensures NoRepeats(Of(txs, a))
      {
        OfElements(txs, a);
      }
    } else if NoAccountRepeats(txs) {
      OfNoRepeats(txs);
    }
  }

  lemma {:induction false} OfNoRepeats(txs: seq<Tx>)
    requires NoAccountRepeats(txs)
    ensures NoRepeats(txs)
  {
    if txs != [] {
      var init, last := txs[..|txs| - 1], txs[|txs| - 1];
      forall a
        ensures NoRepeats(Of(init, a))
      {
        var all, some := Of(txs, a), Of(init, a);
        assert all == some + (if last.source == a then [last] else []) && NoRepeats(all);
        forall i, j | 0 <= i < j < |some|
          ensures some[i] != some[j]
        {
          assert all[i] != all[j];
        }
      }
      OfNoRepeats(init);
      OfElements(init, last.source);
      var some := Of(init, last.source);
      var all := Of(txs, last.source);
      assert all == some + [last] && NoRepeats(all);
      assert last !in some by {
        forall i | 0 <= i < |some|
          ensures some[i] != last
        {
          assert all[i] != all[|some|];
        }
      }
    }
  }

  function Fees(s: seq<Tx>): (f: int) {
    if s == [] then 0 else Fees(s[..|s| - 1]) + s[|s| - 1].fee
  }

  function LastSeq(s: seq<Tx>): (n: nat) {
    if s == [] then 0 else s[|s| - 1].seqNum
  }

  /** Each transaction is valid after the one before it. */
  predicate AllValid(valid: (Tx, nat) -> bool, s: seq<Tx>) {
    forall i :: 0 <= i < |s| ==> valid(s[i], LastSeq(s[..i]))
  }

  /** What a pass over an account's sorted transactions keeps. */
  function Kept(valid: (Tx, nat) -> bool, s: seq<Tx>): (r: seq<Tx>)
  {
    if s == [] then []
    else
      var r, t := Kept(valid, s[..|s| - 1]), s[|s| - 1];
      if valid(t, LastSeq(r)) then r + [t] else r
  }

  lemma {:induction false} ValidMore(valid: (Tx, nat) -> bool, s: seq<Tx>, t: Tx)
    ensures AllValid(valid, s + [t]) <==> AllValid(valid, s) && valid(t, LastSeq(s))
  {
    var r := s + [t];
    forall i | 0 <= i <= |s|
      ensures r[..i] == s[..i]
    {
    }
    assert s[..|s|] == s;
    forall i | 0 <= i < |s|
      ensures valid(r[i], LastSeq(r[..i])) <==> valid(s[i], LastSeq(s[..i]))
    {
    }
  }

  lemma {:induction false} KeptValid(valid: (Tx, nat) -> bool, s: seq<Tx>)
    ensures AllValid(valid, Kept(valid, s))
  {
    if s != [] {
      KeptValid(valid, s[..|s| - 1]);
      ValidMore(valid, Kept(valid, s[..|s| - 1]), s[|s| - 1]);
    }
  }

  lemma {:induction false} KeptFrom(valid: (Tx, nat) -> bool, s: seq<Tx>, t: Tx)
    ensures t in Kept(valid, s) ==> t in s
  {
    if s != [] {
      KeptFrom(valid, s[..|s| - 1], t);
      assert s == s[..|s| - 1] + [s[|s| - 1]];
    }
  }

  /** The sequence number of the last transaction before place i that is in r; 0 if
      there is none. */
  ghost predicate LastBefore(s: seq<Tx>, r: seq<Tx>, i: nat, x: nat)
    requires i <= |s|
  {
    || (x == 0 && forall j :: 0 <= j < i ==> s[j] !in r)
    || exists j :: LastAt(s, r, i, x, j)
  }

  predicate LastAt(s: seq<Tx>, r: seq<Tx>, i: nat, x: nat, j: nat)
    requires i <= |s|
  {
    j < i && s[j] in r && x == s[j].seqNum && forall m :: j < m < i ==> s[m] !in r
  }

  lemma {:induction false} KeptLast(valid: (Tx, nat) -> bool, s: seq<Tx>, i: nat)
    requires NoRepeats(s) && i <= |s|
    ensures LastBefore(s, Kept(valid, s[..i]), i, LastSeq(Kept(valid, s[..i])))
    decreases i
  {
    if i > 0 {
      var before, r, t := Kept(valid, s[..i - 1]), Kept(valid, s[..i]), s[i - 1];
      assert s[..i][..i - 1] == s[..i - 1];
      KeptLast(valid, s, i - 1);
      if valid(t, LastSeq(before)) {
        assert r == before + [t];
        assert LastAt(s, r, i, t.seqNum, i - 1);
      } else {
        KeptFrom(valid, s[..i - 1], t);
        assert t !in s[..i - 1];
        var p, x := i - 1, LastSeq(before);
        if j :| LastAt(s, before, p, x, j) {
          assert LastAt(s, r, i, LastSeq(r), j);
        }
      }
    }
  }

  lemma {:induction false} KeptPrefix(valid: (Tx, nat) -> bool, s: seq<Tx>, i: nat, j: nat)
    requires NoRepeats(s) && j < i <= |s|
    ensures s[j] in Kept(valid, s[..i]) <==> s[j] in Kept(valid, s[..j + 1])
    decreases i
  {
    if j + 1 < i {
      assert s[..i][..i - 1] == s[..i - 1];
      KeptPrefix(valid, s, i - 1, j);
    }
  }

  /** A pass keeps a transaction exactly if it is valid after the last one kept before
      it: an invalid one does not end the pass. */
  lemma {:induction false} KeptIff(valid: (Tx, nat) -> bool, s: seq<Tx>, i: nat) returns (x: nat)
    requires NoRepeats(s) && i < |s|
    ensures LastBefore(s, Kept(valid, s), i, x) && (s[i] in Kept(valid, s) <==> valid(s[i], x))
  {
    var r, before := Kept(valid, s), Kept(valid, s[..i]);
    x := LastSeq(before);
    KeptLast(valid, s, i);
    assert s[..|s|] == s && s[..i + 1][..i] == s[..i];
    forall j | 0 <= j < i
      ensures s[j] in r <==> s[j] in before
    {
      KeptPrefix(valid, s, |s|, j);
      KeptPrefix(valid, s, i, j);
    }
    if j :| LastAt(s, before, i, x, j) {
      assert LastAt(s, r, i, x, j);
    }
    KeptPrefix(valid, s, |s|, i);
    KeptFrom(valid, s[..i], s[i]);
    assert s[i] !in s[..i];
  }

  lemma {:induction false} FeesAdd(a: seq<Tx>, t: Tx, b: seq<Tx>)
    ensures Fees(a + [t] + b) == Fees(a) + t.fee + Fees(b)
  {
    var s := a + [t] + b;
    if b == [] {
      assert s[..|s| - 1] == a;
    } else {
      var c := b[..|b| - 1];
      FeesAdd(a, t, c);
      assert s[..|s| - 1] == a + [t] + c;
    }
  }

  lemma {:induction false} KeptShort(valid: (Tx, nat) -> bool, s: seq<Tx>)
    ensures |Kept(valid, s)| <= |s|
  {
    if s != [] {
      KeptShort(valid, s[..|s| - 1]);
    }
  }

  /** Everything is kept exactly when everything is valid. */
  lemma {:induction false} AllKept(valid: (Tx, nat) -> bool, s: seq<Tx>)
    ensures AllValid(valid, s) <==> |Kept(valid, s)| == |s|
    ensures AllValid(valid, s) ==> Kept(valid, s) == s
  {
    if s != [] {
      var init, t := s[..|s| - 1], s[|s| - 1];
      AllKept(valid, init);
      KeptShort(valid, init);
      assert s == init + [t];
      ValidMore(valid, init, t);
    }
  }

  lemma {:induction false} AscendMore(s: seq<Tx>, t: Tx)
    requires Strict(SeqLess, s) && (s == [] || s[|s| - 1].seqNum < t.seqNum)
    ensures Strict(SeqLess, s + [t])
  {
    forall i | 0 <= i < |s|
      ensures SeqLess(s[i], t)
    {
      assert i < |s| - 1 ==> SeqLess(s[i], s[|s| - 1]);
    }
  }

  lemma {:induction false} ValidAscends(valid: (Tx, nat) -> bool, s: seq<Tx>)
    requires Rising(valid) && AllValid(valid, s)
    ensures Strict(SeqLess, s)
  {
    if s != [] {
      var init, t := s[..|s| - 1], s[|s| - 1];
      assert s == init + [t];
      ValidMore(valid, init, t);
      ValidAscends(valid, init);
      AscendMore(init, t);
    }
  }

  lemma {:induction false} ValidPrefix(valid: (Tx, nat) -> bool, s: seq<Tx>, p: nat)
    requires AllValid(valid, s) && p <= |s|
    ensures AllValid(valid, s[..p])
  {
    forall i | 0 <= i < p
      ensures valid(s[..p][i], LastSeq(s[..p][..i]))
    {
      assert s[..p][..i] == s[..i];
    }
  }

  lemma {:induction false} FeesPrefix(s: seq<Tx>, p: nat)
    requires p <= |s| && forall t :: t in s ==> t.fee >= 0
    ensures Fees(s[..p]) <= Fees(s)
  {
    if p < |s| {
      var init := s[..|s| - 1];
      FeesPrefix(init, p);
      assert init[..p] == s[..p];
      assert s[|s| - 1] in s;
    } else {
      assert s[..p] == s;
    }
  }

  // ----- What a good set is -----

  /** The account's transactions in order of sequence number. */
  ghost predicate Listing(r: seq<Tx>, txs: seq<Tx>, a: AccountID) {
    Strict(SeqLess, r) && forall t :: t in r <==> t in txs && t.source == a
  }

  /** Valid one after the other, and the account can pay for all. */
  ghost predicate AccountGood(l: Ledger, txs: seq<Tx>, a: AccountID) {
    exists r :: Listing(r, txs, a) && GoodChain(l, r, a)
  }

  predicate GoodChain(l: Ledger, r: seq<Tx>, a: AccountID) {
    AllValid(l.valid, r) && (r == [] || l.balance(a) >= Fees(r))
  }

  predicate HashSorted(txs: seq<Tx>) {
    forall i, j :: 0 <= i < j < |txs| ==> !HashLess(txs[j], txs[i])
  }

  ghost predicate Acceptable(l: Ledger, previous: Hash, txs: seq<Tx>) {
    && previous == l.hash && |txs| <= l.maxTxSetSize && HashSorted(txs) && NoRepeats(txs)
    && forall a :: AccountGood(l, txs, a)
  }

  lemma {:induction false} ListingUnique(r: seq<Tx>, s: seq<Tx>, txs: seq<Tx>, a: AccountID)
    requires Listing(r, txs, a) && Listing(s, txs, a)
    ensures r == s
  {
    StrictUnique(SeqLess, r, s);
  }

  /** A sorted arrangement of an account's transactions is the listing, if there
      is one; and it is one if each is valid after the one before. */
  lemma {:induction false} SortedListing(valid: (Tx, nat) -> bool, s: seq<Tx>, txs: seq<Tx>, a: AccountID)
    requires Rising(valid) && NoRepeats(Of(txs, a))
    requires multiset(s) == multiset(Of(txs, a)) && SortedBy(SeqLess, s)
    ensures forall t :: t in s <==> t in txs && t.source == a
    ensures AllValid(valid, s) ==> Listing(s, txs, a)
    ensures forall r :: Listing(r, txs, a) ==> r == s
  {
    OfElements(txs, a);
    forall t
      ensures t in s <==> t in txs && t.source == a
    {
      SameElements(s, Of(txs, a), t);
    }
    if AllValid(valid, s) {
      ValidAscends(valid, s);
    }
    PermutationNoRepeats(Of(txs, a), s);
    forall r | Listing(r, txs, a)
      ensures r == s
    {
      SortedIsStrict(r, s);
      ListingUnique(r, s, txs, a);
    }
  }

  lemma {:induction false} SortedIsStrict(r: seq<Tx>, s: seq<Tx>)
    requires Strict(SeqLess, r) && SortedBy(SeqLess, s) && NoRepeats(s) && forall t :: t in s ==> t in r
    ensures Strict(SeqLess, s)
  {
    forall i, j | 0 <= i < j < |s|
      ensures SeqLess(s[i], s[j])
    {
      assert s[i] in r && s[j] in r;
      var x :| 0 <= x < |r| && r[x] == s[i];
      var y :| 0 <= y < |r| && r[y] == s[j];
      assert x < y ==> SeqLess(r[x], r[y]);
    }
  }

  // ----- Removing -----

  function FilterOut(txs: seq<Tx>, gone: set<Tx>): (r: seq<Tx>)
    ensures |r| <= |txs|
  {
    if txs == [] then []
    else
      var last := txs[|txs| - 1];
      FilterOut(txs[..|txs| - 1], gone) + (if last in gone then [] else [last])
  }

  lemma {:induction false} FilterElements(txs: seq<Tx>, gone: set<Tx>)
    ensures forall t :: t in FilterOut(txs, gone) <==> t in txs && t !in gone
  {
    if txs != [] {
      FilterElements(txs[..|txs| - 1], gone);
      assert txs == txs[..|txs| - 1] + [txs[|txs| - 1]];
    }
  }

  /** Erasing the first occurrence of a transaction. */
  function Without(txs: seq<Tx>, t: Tx): (r: seq<Tx>) {
    if txs == [] then [] else if txs[0] == t then txs[1..] else [txs[0]] + Without(txs[1..], t)
  }

  lemma {:induction false} WithoutMissing(txs: seq<Tx>, t: Tx)
    requires t !in txs
    ensures Without(txs, t) == txs
  {
    if txs != [] {
      WithoutMissing(txs[1..], t);
    }
  }

  lemma {:induction false} WithoutLast(txs: seq<Tx>, x: Tx, t: Tx)
    ensures Without(txs + [x], t) == if t in txs then Without(txs, t) + [x] else if x == t then txs else txs + [x]
  {
    if txs == [] {
      assert txs + [x] == [x];
      assert [x][1..] == [];
    } else {
      assert (txs + [x])[1..] == txs[1..] + [x];
      WithoutLast(txs[1..], x, t);
      assert txs == [txs[0]] + txs[1..];
    }
  }

  /** Erasing the next-to-be-erased from one more transaction. */
  lemma {:induction false} WithoutNext(r: seq<Tx>, x: Tx, t: Tx, r': seq<Tx>)
    requires Without(r, t) == r' && x !in r
    ensures Without(r + [x], t) == r' + (if x == t then [] else [x])
  {
    WithoutLast(r, x, t);
    if t !in r {
      WithoutMissing(r, t);
    }
  }

  lemma {:induction false} FilterMore(txs: seq<Tx>, gone: set<Tx>, t: Tx)
    requires NoRepeats(txs)
    ensures Without(FilterOut(txs, gone), t) == FilterOut(txs, gone + {t})
  {
    if txs != [] {
      var init, x := txs[..|txs| - 1], txs[|txs| - 1];
      FilterMore(init, gone, t);
      if x in gone {
        assert FilterOut(init, gone) + [] == FilterOut(init, gone);
        assert FilterOut(init, gone + {t}) + [] == FilterOut(init, gone + {t});
      } else {
        assert x !in init;
        FilterElements(init, gone);
        WithoutNext(FilterOut(init, gone), x, t, FilterOut(init, gone + {t}));
      }
    }
  }

  lemma {:induction false} FilterNone(txs: seq<Tx>)
    ensures FilterOut(txs, {}) == txs
  {
    if txs != [] {
      FilterNone(txs[..|txs| - 1]);
      assert txs == txs[..|txs| - 1] + [txs[|txs| - 1]];
    }
  }

  lemma {:induction false} FilterKeepsOrder(txs: seq<Tx>, gone: set<Tx>)
    ensures HashSorted(txs) ==> HashSorted(FilterOut(txs, gone))
    ensures NoRepeats(txs) ==> NoRepeats(FilterOut(txs, gone))
  {
    if txs != [] {
      var init, x := txs[..|txs| - 1], txs[|txs| - 1];
      FilterKeepsOrder(init, gone);
      FilterElements(init, gone);
      var r := FilterOut(init, gone);
      forall i | 0 <= i < |r|
        ensures HashSorted(txs) ==> !HashLess(x, r[i])
        ensures NoRepeats(txs) ==> r[i] != x
      {
        assert r[i] in init;
        var j :| 0 <= j < |init| && init[j] == r[i];
        assert txs[j] == r[i];
      }
    }
  }

  function Elements(s: seq<Tx>): (r: set<Tx>) {
    set t | t in s
  }

  lemma {:induction false} ElementsMore(s: seq<Tx>, t: Tx)
    ensures Elements(s + [t]) == Elements(s) + {t}
  {
  }

  lemma {:induction false} ElementsConcat(a: seq<Tx>, b: seq<Tx>)
    ensures Elements(a + b) == Elements(a) + Elements(b)
  {
  }

  // ----- The frame -----

  class TxSetFrame {
    /** How the contents are hashed: the previous ledger's hash, then the list. */
    const sha: (Hash, seq<Tx>) -> Hash
    var transactions: seq<Tx>
    var previousLedgerHash: Hash
    var hash: Hash
    var hashIsValid: bool

    /** A hash that is marked as valid is that of the present contents. */
    ghost predicate Valid()
      reads this
    {
      hashIsValid ==> HashSorted(transactions) && hash == sha(previousLedgerHash, transactions)
    }

    constructor (sha: (Hash, seq<Tx>) -> Hash, previousLedgerHash: Hash)
      ensures Valid() && transactions == [] && this.previousLedgerHash == previousLedgerHash && this.sha == sha
    {
      this.sha, this.previousLedgerHash, transactions, hash, hashIsValid := sha, previousLedgerHash, [], 0, false;
    }

    method Add(t: Tx)
      modifies this`transactions, this`hashIsValid
      ensures Valid() && transactions == old(transactions) + [t]
    {
      transactions, hashIsValid := transactions + [t], false;
    }

    method SetPreviousLedgerHash(h: Hash)
      modifies this`previousLedgerHash, this`hashIsValid
      ensures Valid() && previousLedgerHash == h
    {
      previousLedgerHash, hashIsValid := h, false;
    }

    method SortForHash()
      modifies this`transactions, this`hashIsValid
      ensures Valid() && multiset(transactions) == multiset(old(transactions)) && HashSorted(transactions)
      ensures forall i, j :: 0 <= i < j < |transactions| ==> transactions[i].fullHash <= transactions[j].fullHash
    {
      transactions := SortByHash(transactions);
      hashIsValid := false;
    }

    /** getContentsHash: computed anew only if something has changed. */
    method GetContentsHash() returns (h: Hash)
      requires Valid()
      modifies this`transactions, this`hash, this`hashIsValid
      ensures Valid() && multiset(transactions) == multiset(old(transactions)) && HashSorted(transactions)
      ensures hashIsValid && h == hash == sha(previousLedgerHash, transactions)
      ensures old(hashIsValid) ==> h == old(hash)
    {
      if !hashIsValid {
        SortForHash();
        hash := sha(previousLedgerHash, transactions);
        hashIsValid := true;
      }
      return hash;
    }

    method RemoveTx(t: Tx, ghost all: seq<Tx>, ghost gone: set<Tx>)
      requires NoRepeats(all) && transactions == FilterOut(all, gone)
      modifies this`transactions, this`hashIsValid
      ensures Valid() && transactions == FilterOut(all, gone + {t})
    {
      FilterMore(all, gone, t);
      transactions, hashIsValid := Without(transactions, t), false;
    }

    method RemoveAll(s: seq<Tx>, ghost all: seq<Tx>, ghost gone: set<Tx>)
      requires NoRepeats(all) && transactions == FilterOut(all, gone)
      modifies this`transactions, this`hashIsValid
      ensures (old(Valid()) ==> Valid()) && transactions == FilterOut(all, gone + Elements(s))
    {
      assert gone + Elements(s[..0]) == gone;
      for i := 0 to |s|
        invariant (old(Valid()) ==> Valid()) && transactions == FilterOut(all, gone + Elements(s[..i]))
      {
        RemoveTx(s[i], all, gone + Elements(s[..i]));
        assert s[..i + 1] == s[..i] + [s[i]];
        assert gone + Elements(s[..i]) + {s[i]} == gone + Elements(s[..i + 1]);
      }
      assert s[..|s|] == s;
    }

    /** checkOrTrim over one account, removing what is invalid; then removing
        everything if the account cannot pay. */
    method TrimAccount(l: Ledger, a: AccountID, s: seq<Tx>, ghost all: seq<Tx>, ghost gone: set<Tx>)
      returns (trimmed: seq<Tx>)
      requires NoRepeats(all) && NoRepeats(s) && transactions == FilterOut(all, gone)
      modifies this`transactions, this`hashIsValid
      ensures (old(Valid()) ==> Valid()) && transactions == FilterOut(all, gone + Elements(trimmed))
      ensures Elements(trimmed) == Elements(s) - Elements(Remaining(l, a, s))
    {
      var any, totFee;
      trimmed, any, totFee := Pass(l, s);
      RemoveAll(trimmed, all, gone);
      if any && l.balance(a) < totFee {
        RemoveAll(s, all, gone + Elements(trimmed));
        ElementsConcat(trimmed, s);
        assert gone + Elements(trimmed) + Elements(s) == gone + Elements(trimmed + s);
        trimmed := trimmed + s;
      }
    }
  }

  /** One pass over an account's transactions in order; what it passes over. */
  method Pass(l: Ledger, s: seq<Tx>) returns (trimmed: seq<Tx>, any: bool, totFee: int)
    requires NoRepeats(s)
    ensures Dropped(l, s, trimmed)
    ensures any == (Kept(l.valid, s) != []) && totFee == Fees(Kept(l.valid, s))
  {
    trimmed, any, totFee := [], false, 0;
    var lastSeq := 0;
    ghost var kept: seq<Tx> := [];
    assert s[..0] == [];
    for i := 0 to |s|
      invariant kept == Kept(l.valid, s[..i])
      invariant lastSeq == LastSeq(kept) && totFee == Fees(kept) && any == (kept != [])
      invariant Dropped(l, s[..i], trimmed)
    {
      DropStep(l, s, i, trimmed);
      PassStep(l, s, i, kept);
      var tx := s[i];
      if !l.valid(tx, lastSeq) {
        trimmed := trimmed + [tx];
      } else {
        totFee, lastSeq, any := totFee + tx.fee, tx.seqNum, true;
        kept := kept + [tx];
      }
    }
    assert s[..|s|] == s;
  }

  /** What is left of an account's transactions after trimming. */
  function Remaining(l: Ledger, a: AccountID, s: seq<Tx>): (r: seq<Tx>) {
    var r := Kept(l.valid, s);
    if r != [] && l.balance(a) < Fees(r) then [] else r
  }

  /** Trimmed so far: exactly what the pass did not keep. */
  ghost predicate Dropped(l: Ledger, s: seq<Tx>, trimmed: seq<Tx>) {
    Elements(trimmed) == Elements(s) - Elements(Kept(l.valid, s))
  }

  lemma {:induction false} DropStep(l: Ledger, s: seq<Tx>, i: nat, trimmed: seq<Tx>)
    requires i < |s| && NoRepeats(s) && Dropped(l, s[..i], trimmed)
    ensures s[..i + 1][..i] == s[..i]
    ensures var kept, tx := Kept(l.valid, s[..i]), s[i];
            if l.valid(tx, LastSeq(kept)) then Kept(l.valid, s[..i + 1]) == kept + [tx]
              && Dropped(l, s[..i + 1], trimmed)
            else Kept(l.valid, s[..i + 1]) == kept && Dropped(l, s[..i + 1], trimmed + [tx])
  {
    assert s[..i + 1] == s[..i] + [s[i]];
    assert s[i] !in s[..i];
    ElementsMore(s[..i], s[i]);
    ElementsMore(trimmed, s[i]);
    ElementsMore(Kept(l.valid, s[..i]), s[i]);
    KeptFrom(l.valid, s[..i], s[i]);
  }

  /** One transaction of a pass. */
  lemma {:induction false} PassStep(l: Ledger, s: seq<Tx>, i: nat, kept: seq<Tx>)
    requires i < |s| && kept == Kept(l.valid, s[..i])
    ensures Kept(l.valid, s[..i + 1]) == if l.valid(s[i], LastSeq(kept)) then kept + [s[i]] else kept
    ensures Fees(kept + [s[i]]) == Fees(kept) + s[i].fee && LastSeq(kept + [s[i]]) == s[i].seqNum
  {
    assert s[..i + 1][..i] == s[..i];
    assert (kept + [s[i]])[..|kept|] == kept;
  }
}
