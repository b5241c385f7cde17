/** Trimming, surge pricing and checking together (src/herder/TxSetFrame.cpp,
    and the order in which src/herder/HerderImpl.cpp uses them): a proposed set
    is always accepted. */
module TxSetBuild {
  import opened Order
  import opened LedgerTypes
  import opened TxSet

  // ----- Grouping by account, checking the order of hashes on the way -----

  ghost predicate Grouped(txs: seq<Tx>, m: map<AccountID, seq<Tx>>) {
    forall a :: (a in m ==> m[a] == Of(txs, a)) && (a !in m ==> Of(txs, a) == [])
  }

  lemma {:induction false} OfMore(txs: seq<Tx>, i: nat, a: AccountID)
    requires i < |txs|
    ensures Of(txs[..i + 1], a) == if txs[i].source == a then Of(txs[..i], a) + [txs[i]] else Of(txs[..i], a)
  {
    assert txs[..i + 1][..i] == txs[..i];
  }

  function Placed(m: map<AccountID, seq<Tx>>, tx: Tx): (r: map<AccountID, seq<Tx>>) {
    m[tx.source := (if tx.source in m then m[tx.source] else []) + [tx]]
  }

  lemma {:induction false} GroupMore(txs: seq<Tx>, i: nat, m: map<AccountID, seq<Tx>>)
    requires i < |txs| && Grouped(txs[..i], m)
    ensures Grouped(txs[..i + 1], Placed(m, txs[i]))
  {
    forall a
      ensures Of(txs[..i + 1], a) == if txs[i].source == a then Of(txs[..i], a) + [txs[i]] else Of(txs[..i], a)
    {
      OfMore(txs, i, a);
    }
  }

  /** Neighbours are in order. */
  predicate StepSorted(txs: seq<Tx>, n: nat)
    requires n <= |txs|
  {
    forall i :: 0 < i < n ==> txs[i - 1].fullHash <= txs[i].fullHash
  }

  lemma {:induction false} StepsAscend(txs: seq<Tx>, x: nat, y: nat)
    requires StepSorted(txs, |txs|) && x <= y < |txs|
    ensures txs[x].fullHash <= txs[y].fullHash
    decreases y - x
  {
    if x < y {
      StepsAscend(txs, x, y - 1);
    }
  }

  lemma {:induction false} StepsSort(txs: seq<Tx>)
    ensures StepSorted(txs, |txs|) <==> HashSorted(txs)
  {
    if StepSorted(txs, |txs|) {
      forall x, y | 0 <= x < y < |txs|
        ensures !HashLess(txs[y], txs[x])
      {
        StepsAscend(txs, x, y);
      }
    }
    if HashSorted(txs) {
      forall i | 0 < i < |txs|
        ensures txs[i - 1].fullHash <= txs[i].fullHash
      {
        assert !HashLess(txs[i], txs[i - 1]);
      }
    }
  }

  method Group(txs: seq<Tx>) returns (ok: bool, m: map<AccountID, seq<Tx>>)
    ensures ok <==> HashSorted(txs)
    ensures ok ==> Grouped(txs, m)
  {
    ok, m := GroupSteps(txs);
    StepsSort(txs);
  }

  method GroupSteps(txs: seq<Tx>) returns (ok: bool, m: map<AccountID, seq<Tx>>)
    ensures ok <==> StepSorted(txs, |txs|)
    ensures ok ==> Grouped(txs, m)
  {
    m := map[];
    var lastHash := 0;
    for i := 0 to |txs|
      invariant StepSorted(txs, i) && Grouped(txs[..i], m)
      invariant lastHash == if i == 0 then 0 else txs[i - 1].fullHash
    {
      var tx := txs[i];
      if tx.fullHash < lastHash {
        return false, m;
      }
      GroupMore(txs, i, m);
      m := Placed(m, tx);
      lastHash := tx.fullHash;
    }
    assert txs[..|txs|] == txs;
    return true, m;
  }

  // ----- Checking -----

  method CheckAccount(l: Ledger, a: AccountID, s: seq<Tx>) returns (ok: bool)
    ensures ok <==> GoodChain(l, s, a)
  {
    var lastSeq, totFee := 0, 0;
    assert s[..0] == [];
    for i := 0 to |s|
      invariant AllValid(l.valid, s[..i]) && lastSeq == LastSeq(s[..i]) && totFee == Fees(s[..i])
    {
      assert s[..i + 1] == s[..i] + [s[i]];
      ValidMore(l.valid, s[..i], s[i]);
      if !l.valid(s[i], lastSeq) {
        return false;
      }
      totFee, lastSeq := totFee + s[i].fee, s[i].seqNum;
    }
    assert s[..|s|] == s;
    if s != [] && l.balance(a) < totFee {
      return false;
    }
    return true;
  }

  /** In order of sequence numbers a repeated transaction comes right after itself,
      and is not valid there. */
  lemma {:induction false} GoodIffChain(l: Ledger, txs: seq<Tx>, a: AccountID, s: seq<Tx>)
    requires Rising(l.valid) && multiset(s) == multiset(Of(txs, a)) && SortedBy(SeqLess, s)
    ensures NoRepeats(Of(txs, a)) && AccountGood(l, txs, a) <==> GoodChain(l, s, a)
  {
    if GoodChain(l, s, a) {
      ValidAscends(l.valid, s);
      PermutationNoRepeats(s, Of(txs, a));
    }
    if NoRepeats(Of(txs, a)) {
      SortedListing(l.valid, s, txs, a);
    }
  }

  lemma {:induction false} AbsentGood(l: Ledger, txs: seq<Tx>, a: AccountID)
    requires Of(txs, a) == []
    ensures NoRepeats(Of(txs, a)) && AccountGood(l, txs, a)
  {
    OfElements(txs, a);
    assert Listing([], txs, a) && GoodChain(l, [], a);
  }

  /** checkValid accepts exactly the acceptable sets; a set from a peer may repeat a
      transaction, and is refused then. */
  method CheckValid(frame: TxSetFrame, l: Ledger) returns (ok: bool)
    requires Rising(l.valid)
    ensures ok <==> Acceptable(l, frame.previousLedgerHash, frame.transactions)
  {
    if l.hash != frame.previousLedgerHash {
      return false;
    }
    if |frame.transactions| > l.maxTxSetSize {
      return false;
    }
    ok := CheckAccounts(l, frame.transactions);
  }

  method CheckAccounts(l: Ledger, txs: seq<Tx>) returns (ok: bool)
    requires Rising(l.valid)
    ensures ok <==> HashSorted(txs) && NoRepeats(txs) && forall a :: AccountGood(l, txs, a)
  {
    RepeatsWithinAccount(txs);
    var sorted, m := Group(txs);
    if !sorted {
      return false;
    }
    forall a | a !in m
      ensures NoRepeats(Of(txs, a)) && AccountGood(l, txs, a)
    {
      AbsentGood(l, txs, a);
    }
    var left := m.Keys;
    while left != {}
      invariant left <= m.Keys
      invariant forall a :: a !in left ==> NoRepeats(Of(txs, a)) && AccountGood(l, txs, a)
    {
      var a :| a in left;
      left := left - {a};
      var s := SortBySeq(m[a]);
      GoodIffChain(l, txs, a, s);
      var good := CheckAccount(l, a, s);
      if !good {
        return false;
      }
    }
    return true;
  }

  // ----- Trimming -----

  /** What trimming leaves of an account is good. */
  lemma {:induction false} RemainingGood(l: Ledger, a: AccountID, s: seq<Tx>)
    requires Rising(l.valid)
    ensures Strict(SeqLess, Remaining(l, a, s)) && GoodChain(l, Remaining(l, a, s), a)
  {
    KeptValid(l.valid, s);
    ValidAscends(l.valid, Kept(l.valid, s));
  }

  /** The account's transactions in some order of sequence numbers. */
  ghost predicate Arranged(s: seq<Tx>, txs: seq<Tx>, a: AccountID) {
    NoRepeats(s) && SortedBy(SeqLess, s) && forall t :: t in s <==> t in txs && t.source == a
  }

  ghost predicate TrimmedBy(l: Ledger, txs: seq<Tx>, rest: seq<Tx>, a: AccountID, s: seq<Tx>) {
    Arranged(s, txs, a) && forall t: Tx :: t.source == a ==> (t in rest <==> t in Remaining(l, a, s))
  }

  /** Of the account's transactions just those rest that a pass in order keeps. */
  ghost predicate TrimmedTo(l: Ledger, txs: seq<Tx>, rest: seq<Tx>, a: AccountID) {
    exists s :: TrimmedBy(l, txs, rest, a, s)
  }

  /** After an account has been trimmed it is good. */
  lemma {:induction false} TrimmedGood(l: Ledger, txs: seq<Tx>, rest: seq<Tx>, a: AccountID)
    requires Rising(l.valid) && TrimmedTo(l, txs, rest, a)
    ensures AccountGood(l, rest, a)
  {
    var s :| TrimmedBy(l, txs, rest, a, s);
    var r := Remaining(l, a, s);
    RemainingGood(l, a, s);
    forall t
      ensures t in r <==> t in rest && t.source == a
    {
      KeptFrom(l.valid, s, t);
    }
    assert Listing(r, rest, a);
  }

  /** An account that was good loses nothing. */
  lemma {:induction false} GoodLosesNothing(l: Ledger, txs: seq<Tx>, rest: seq<Tx>, t: Tx)
    requires AccountGood(l, txs, t.source) && TrimmedTo(l, txs, rest, t.source) && t in txs
    ensures t in rest
  {
    var a := t.source;
    var s :| TrimmedBy(l, txs, rest, a, s);
    var r :| Listing(r, txs, a) && GoodChain(l, r, a);
    SortedIsStrict(r, s);
    ListingUnique(r, s, txs, a);
    AllKept(l.valid, s);
  }

  /** What rests of an account: in order of sequence numbers, a transaction rests
      exactly if it is valid after the last one before it that rests; unless none
      rests, because none is valid or the account cannot pay for those that are. */
  lemma {:induction false} RestsIff(l: Ledger, txs: seq<Tx>, rest: seq<Tx>, a: AccountID, s: seq<Tx>, i: nat)
    returns (x: nat)
    requires TrimmedBy(l, txs, rest, a, s) && i < |s| && exists j :: 0 <= j < |s| && s[j] in rest
    ensures LastBefore(s, rest, i, x) && (s[i] in rest <==> l.valid(s[i], x))
  {
    var r := Kept(l.valid, s);
    forall j | 0 <= j < |s|
      ensures s[j] in rest <==> s[j] in r
    {
      assert s[j] in s && s[j].source == a;
    }
    x := KeptIff(l.valid, s, i);
    if j :| LastAt(s, r, i, x, j) {
      assert LastAt(s, rest, i, x, j);
    }
  }

  lemma {:induction false} NoneRests(l: Ledger, txs: seq<Tx>, rest: seq<Tx>, a: AccountID, s: seq<Tx>)
    requires TrimmedBy(l, txs, rest, a, s) && forall j :: 0 <= j < |s| ==> s[j] !in rest
    ensures (forall j :: 0 <= j < |s| ==> !l.valid(s[j], 0)) || l.balance(a) < Fees(Kept(l.valid, s))
  {
    var r := Kept(l.valid, s);
    assert r == [] || r[0] in r;
    KeptFrom(l.valid, s, if r == [] then Tx(0, a, 0, 0, 0) else r[0]);
    if r == [] {
      forall j | 0 <= j < |s|
        ensures !l.valid(s[j], 0)
      {
        var x := KeptIff(l.valid, s, j);
      }
    }
  }

  /** Accounts not yet looked at have lost nothing. */
  ghost predicate Untouched(all: seq<Tx>, gone: set<Tx>, left: set<AccountID>) {
    forall t :: t in gone ==> t in all && t.source !in left
  }

  ghost predicate Trimmed(l: Ledger, all: seq<Tx>, rest: seq<Tx>, left: set<AccountID>) {
    forall a :: a !in left ==> TrimmedTo(l, all, rest, a)
  }

  lemma {:induction false} TrimStart(l: Ledger, all: seq<Tx>, m: map<AccountID, seq<Tx>>)
    requires Grouped(all, m)
    ensures Trimmed(l, all, all, m.Keys)
  {
    forall a | a !in m.Keys
      ensures TrimmedTo(l, all, all, a)
    {
      OfElements(all, a);
      assert TrimmedBy(l, all, all, a, []);
    }
  }

  /** Removing another account's transactions changes nothing for this one. */
  lemma {:induction false} TrimmedElsewhere(l: Ledger, all: seq<Tx>, rest: seq<Tx>, rest': seq<Tx>, a: AccountID)
    requires TrimmedTo(l, all, rest, a) && forall t: Tx :: t.source == a ==> (t in rest <==> t in rest')
    ensures TrimmedTo(l, all, rest', a)
  {
    var s :| TrimmedBy(l, all, rest, a, s);
    assert TrimmedBy(l, all, rest', a, s);
  }

  lemma {:induction false} TrimNext(l: Ledger, all: seq<Tx>, gone: set<Tx>, left: set<AccountID>, a: AccountID,
                                    s: seq<Tx>, trimmed: seq<Tx>)
    requires Untouched(all, gone, left) && Trimmed(l, all, FilterOut(all, gone), left) && a in left
    requires Arranged(s, all, a) && Elements(trimmed) == Elements(s) - Elements(Remaining(l, a, s))
    ensures Untouched(all, gone + Elements(trimmed), left - {a})
    ensures Trimmed(l, all, FilterOut(all, gone + Elements(trimmed)), left - {a})
  {
    var gone' := gone + Elements(trimmed);
    forall t | t in Elements(trimmed)
      ensures t in all && t.source == a
    {
      assert t in s;
    }
    FilterElements(all, gone);
    FilterElements(all, gone');
    forall b | b !in left - {a}
      ensures TrimmedTo(l, all, FilterOut(all, gone'), b)
    {
      if b == a {
        AccountTrimmed(l, all, gone', a, s, trimmed);
      } else {
        TrimmedElsewhere(l, all, FilterOut(all, gone), FilterOut(all, gone'), b);
      }
    }
  }

  lemma {:induction false} AccountTrimmed(l: Ledger, all: seq<Tx>, gone: set<Tx>, a: AccountID, s: seq<Tx>,
                                          trimmed: seq<Tx>)
    requires Arranged(s, all, a) && Elements(trimmed) == Elements(s) - Elements(Remaining(l, a, s))
    requires forall t: Tx :: t.source == a ==> (t in gone <==> t in Elements(trimmed))
    ensures TrimmedTo(l, all, FilterOut(all, gone), a)
  {
    FilterElements(all, gone);
    forall t: Tx | t.source == a
      ensures t in FilterOut(all, gone) <==> t in Remaining(l, a, s)
    {
      KeptFrom(l.valid, s, t);
      assert t in Elements(trimmed) <==> t in Elements(s) && t !in Elements(Remaining(l, a, s));
    }
    assert TrimmedBy(l, all, FilterOut(all, gone), a, s);
  }

  /** trimInvalid leaves, in hash order, of each account just what a pass in order
      of sequence numbers keeps, and reports the others. */
  method TrimInvalid(frame: TxSetFrame, l: Ledger) returns (trimmed: seq<Tx>)
    requires Rising(l.valid) && NoRepeats(frame.transactions)
    modifies frame`transactions, frame`hashIsValid
    ensures NoRepeats(frame.transactions) && HashSorted(frame.transactions)
    ensures forall t :: t in trimmed <==> t in old(frame.transactions) && t !in frame.transactions
    ensures forall t :: t in frame.transactions ==> t in old(frame.transactions)
    ensures |frame.transactions| <= |old(frame.transactions)|
    ensures forall a :: TrimmedTo(l, old(frame.transactions), frame.transactions, a)
    ensures forall a :: AccountGood(l, frame.transactions, a)
  {
    ghost var before := frame.transactions;
    frame.SortForHash();
    ghost var all := frame.transactions;
    PermutationNoRepeats(before, all);
    assert |all| == |multiset(all)| == |before|;
    forall t
      ensures t in all <==> t in before
    {
      SameElements(all, before, t);
    }
    var ok, m := Group(frame.transactions);
    trimmed := TrimAccounts(frame, l, m);
    TrimmedOfSame(l, before, all, frame.transactions);
  }

  lemma {:induction false} TrimmedOfSame(l: Ledger, before: seq<Tx>, all: seq<Tx>, rest: seq<Tx>)
    requires Rising(l.valid) && Trimmed(l, all, rest, {}) && forall t :: t in all <==> t in before
    ensures forall a :: TrimmedTo(l, before, rest, a) && AccountGood(l, rest, a)
  {
    forall a
      ensures TrimmedTo(l, before, rest, a) && AccountGood(l, rest, a)
    {
      TrimmedGood(l, all, rest, a);
      var s :| TrimmedBy(l, all, rest, a, s);
      assert TrimmedBy(l, before, rest, a, s);
    }
  }

  method TrimAccounts(frame: TxSetFrame, l: Ledger, m: map<AccountID, seq<Tx>>) returns (trimmed: seq<Tx>)
    requires Rising(l.valid) && NoRepeats(frame.transactions) && HashSorted(frame.transactions)
             && Grouped(frame.transactions, m)
    modifies frame`transactions, frame`hashIsValid
    ensures NoRepeats(frame.transactions) && HashSorted(frame.transactions)
    ensures forall t :: t in trimmed <==> t in old(frame.transactions) && t !in frame.transactions
    ensures forall t :: t in frame.transactions ==> t in old(frame.transactions)
    ensures |frame.transactions| <= |old(frame.transactions)|
    ensures Trimmed(l, old(frame.transactions), frame.transactions, {})
  {
    ghost var all := frame.transactions;
    trimmed := [];
    ghost var gone: set<Tx> := {};
    FilterNone(all);
    var left := m.Keys;
    TrimStart(l, all, m);
    while left != {}
      invariant left <= m.Keys
      invariant frame.transactions == FilterOut(all, gone) && Elements(trimmed) == gone
      invariant Untouched(all, gone, left) && Trimmed(l, all, FilterOut(all, gone), left)
    {
      var a :| a in left;
      var s := SortBySeq(m[a]);
      SortedElements(all, a, s);
      var more := frame.TrimAccount(l, a, s, all, gone);
      TrimNext(l, all, gone, left, a, s, more);
      ElementsConcat(trimmed, more);
      gone := gone + Elements(more);
      left := left - {a};
      trimmed := trimmed + more;
    }
    FilterElements(all, gone);
    FilterKeepsOrder(all, gone);
    assert forall t :: t in trimmed <==> t in Elements(trimmed);
  }

  lemma {:induction false} SortedElements(all: seq<Tx>, a: AccountID, s: seq<Tx>)
    requires NoRepeats(all) && multiset(s) == multiset(Of(all, a))
    ensures NoRepeats(s) && forall t :: t in s <==> t in all && t.source == a
  {
    OfElements(all, a);
    PermutationNoRepeats(Of(all, a), s);
    forall t
      ensures t in s <==> t in Of(all, a)
    {
      SameElements(s, Of(all, a), t);
    }
  }

  // ----- Surge pricing -----

  function Ratio(t: Tx): (r: real)
    requires t.minFee > 0
  {
    t.fee as real / t.minFee as real
  }

  function RatioAt(m: map<AccountID, real>, a: AccountID): (r: real) {
    if a in m then m[a] else 0.0
  }

  /** For each account one of its ratios, and the lowest if all fees are positive. */
  ghost predicate FeesOf(txs: seq<Tx>, m: map<AccountID, real>)
    requires forall t :: t in txs ==> t.minFee > 0
  {
    && (forall t :: t in txs ==> t.source in m)
    && (forall a :: a in m ==> exists t :: t in txs && t.source == a && m[a] == Ratio(t))
    && ((forall t :: t in txs ==> t.fee > 0) ==> forall t :: t in txs ==> m[t.source] <= Ratio(t))
  }

  lemma {:induction false} FeesMore(txs: seq<Tx>, tx: Tx, m: map<AccountID, real>)
    requires (forall t :: t in txs + [tx] ==> t.minFee > 0) && FeesOf(txs, m)
    ensures var r, now := Ratio(tx), RatioAt(m, tx.source);
            FeesOf(txs + [tx], if now == 0.0 || r < now then m[tx.source := r] else m)
  {
    var more, r, now := txs + [tx], Ratio(tx), RatioAt(m, tx.source);
    var m' := if now == 0.0 || r < now then m[tx.source := r] else m;
    forall a | a in m'
      ensures exists t :: t in more && t.source == a && m'[a] == Ratio(t)
    {
      if a == tx.source && m'[a] == r {
        assert tx in more;
      } else {
        var t :| t in txs && t.source == a && m[a] == Ratio(t);
        assert t in more;
      }
    }
    if forall t :: t in more ==> t.fee > 0 {
      assert forall t :: t in txs ==> t in more;
      assert tx.source in m ==> now > 0.0;
    }
  }

  /** The program reads a ratio of zero as not yet set. */
  method AccountFees(txs: seq<Tx>) returns (m: map<AccountID, real>)
    requires forall t :: t in txs ==> t.minFee > 0
    ensures FeesOf(txs, m)
  {
    m := map[];
    for i := 0 to |txs|
      invariant FeesOf(txs[..i], m)
    {
      var tx := txs[i];
      assert txs[..i + 1] == txs[..i] + [tx];
      FeesMore(txs[..i], tx, m);
      var r, now := Ratio(tx), RatioAt(m, tx.source);
      if now == 0.0 {
        m := m[tx.source := r];
      } else if r < now {
        m := m[tx.source := r];
      }
    }
    assert txs[..|txs|] == txs;
  }

  predicate SurgeLess(m: map<AccountID, real>, a: Tx, b: Tx) {
    if a.source == b.source then a.seqNum < b.seqNum
    else if RatioAt(m, a.source) == RatioAt(m, b.source) then a.source < b.source
    else RatioAt(m, a.source) > RatioAt(m, b.source)
  }

  function SurgeOrder(m: map<AccountID, real>): (less: (Tx, Tx) -> bool) {
    (a, b) => SurgeLess(m, a, b)
  }

  lemma {:induction false} SurgeLessWeak(m: map<AccountID, real>)
    ensures StrictWeak(SurgeOrder(m))
  {
    var less := SurgeOrder(m);
    forall a: Tx, b: Tx, c: Tx
      ensures !less(a, a)
      ensures less(a, b) && less(b, c) ==> less(a, c)
      ensures !less(a, b) && !less(b, c) ==> !less(a, c)
    {
    }
  }

  method SortBySurge(txs: seq<Tx>, m: map<AccountID, real>) returns (r: seq<Tx>)
    ensures multiset(r) == multiset(txs) && SortedBy(SurgeOrder(m), r)
  {
    SurgeLessWeak(m);
    SortSorted(SurgeOrder(m), txs);
    r := Sort(SurgeOrder(m), txs);
  }

  /** Of one account, what surge pricing keeps comes before what it drops. */
  lemma {:induction false} EarlierIsKept(m: map<AccountID, real>, temp: seq<Tx>, max: nat, t: Tx, u: Tx)
    requires SortedBy(SurgeOrder(m), temp) && max <= |temp|
    requires t.source == u.source && t.seqNum < u.seqNum && t in temp && u !in temp[max..] && u in temp
    ensures t !in temp[max..]
  {
    var y :| 0 <= y < |temp| && temp[y] == u;
    var tail := temp[max..];
    forall x | 0 <= x < |tail|
      ensures tail[x] != t
    {
      assert tail[x] == temp[max + x];
      assert !SurgeOrder(m)(temp[max + x], temp[y]);
    }
  }

  /** How many of the first transactions are kept. */
  function KeptLength(r: seq<Tx>, gone: set<Tx>): (p: nat)
    ensures p <= |r| && (forall i :: 0 <= i < p ==> r[i] !in gone) && (p < |r| ==> r[p] in gone)
  {
    if r == [] || r[0] in gone then 0
    else
      var p := KeptLength(r[1..], gone);
      assert forall i :: 0 < i < p + 1 ==> r[i] == r[1..][i - 1];
      p + 1
  }

  /** An account keeps a beginning of its transactions, so it stays good. */
  lemma {:induction false} BeginningGood(l: Ledger, txs: seq<Tx>, gone: set<Tx>, a: AccountID)
    requires AccountGood(l, txs, a) && forall t :: t in txs ==> t.fee >= 0
    requires forall t, u :: t in txs && u in txs && t.source == u.source == a && t.seqNum < u.seqNum && u !in gone ==>
             t !in gone
    ensures AccountGood(l, FilterOut(txs, gone), a)
  {
    var r :| Listing(r, txs, a) && GoodChain(l, r, a);
    var p := KeptLength(r, gone);
    ValidPrefix(l.valid, r, p);
    FeesPrefix(r, p);
    FilterElements(txs, gone);
    PrefixListing(r, txs, gone, a, p);
    assert GoodChain(l, r[..p], a);
  }

  lemma {:induction false} PrefixListing(r: seq<Tx>, txs: seq<Tx>, gone: set<Tx>, a: AccountID, p: nat)
    requires Listing(r, txs, a) && p == KeptLength(r, gone)
    requires forall t, u :: t in txs && u in txs && t.source == u.source == a && t.seqNum < u.seqNum && u !in gone ==>
             t !in gone
    ensures Listing(r[..p], FilterOut(txs, gone), a)
  {
    FilterElements(txs, gone);
    forall i | p < i < |r|
      ensures r[i] in gone
    {
      assert r[p] in r && r[i] in r && SeqLess(r[p], r[i]);
    }
    forall t
      ensures t in r[..p] <==> t in FilterOut(txs, gone) && t.source == a
    {
      if t in r[..p] {
        var i :| 0 <= i < p && r[..p][i] == t;
        assert r[i] in r;
      }
      if t in FilterOut(txs, gone) && t.source == a {
        assert t in r;
        var i :| 0 <= i < |r| && r[i] == t;
        assert i < p;
        assert r[..p][i] == t;
      }
    }
  }

  lemma {:induction false} CountElements(s: seq<Tx>)
    ensures |Elements(s)| <= |s|
    ensures NoRepeats(s) ==> |Elements(s)| == |s|
  {
    if s != [] {
      var init, t := s[..|s| - 1], s[|s| - 1];
      CountElements(init);
      assert s == init + [t];
      ElementsMore(init, t);
    }
  }

  /** Without the last ones of a rearrangement just the first ones are left. */
  lemma {:induction false} FirstAreLeft(txs: seq<Tx>, temp: seq<Tx>, max: nat)
    requires NoRepeats(txs) && multiset(temp) == multiset(txs) && max <= |temp|
    ensures var rest := FilterOut(txs, Elements(temp[max..]));
            |rest| == max && forall t :: t in rest <==> t in temp[..max]
  {
    var gone := Elements(temp[max..]);
    var rest := FilterOut(txs, gone);
    FilterKeepsOrder(txs, gone);
    FilterElements(txs, gone);
    PermutationNoRepeats(txs, temp);
    CountElements(rest);
    CountElements(temp[..max]);
    forall t
      ensures t in rest <==> t in temp[..max]
    {
      SameElements(temp, txs, t);
      assert temp == temp[..max] + temp[max..];
    }
    assert Elements(rest) == Elements(temp[..max]);
  }

  /** No transaction that went pays better than one that stays. */
  ghost predicate BestStay(fees: map<AccountID, real>, txs: seq<Tx>, rest: seq<Tx>) {
    forall t, u :: t in rest && u in txs && u !in rest ==> !SurgeLess(fees, u, t)
  }

  lemma {:induction false} FirstAreBest(fees: map<AccountID, real>, txs: seq<Tx>, temp: seq<Tx>, max: nat,
                                        rest: seq<Tx>)
    requires multiset(temp) == multiset(txs) && SortedBy(SurgeOrder(fees), temp) && max <= |temp|
    requires forall t :: t in rest <==> t in temp[..max]
    ensures BestStay(fees, txs, rest)
  {
    forall t, u | t in rest && u in txs && u !in rest
      ensures !SurgeLess(fees, u, t)
    {
      SameElements(temp, txs, u);
      var i :| 0 <= i < max && temp[..max][i] == t;
      assert temp == temp[..max] + temp[max..];
      var j :| 0 <= j < |temp| - max && temp[max..][j] == u;
      assert !SurgeOrder(fees)(temp[max + j], temp[i]);
    }
  }

  /** One account has a transaction whose fee ratio is no higher than that of any
      transaction of the other. */
  ghost predicate PaysNoMore(txs: seq<Tx>, a: AccountID, b: AccountID)
    requires forall t :: t in txs ==> t.minFee > 0
  {
    exists u :: u in txs && u.source == a &&
                forall t :: t in txs && t.source == b ==> u.fee * t.minFee <= t.fee * u.minFee
  }

  /** A fee ratio is a fee per minimum fee. */
  lemma {:induction false} RatioOrder(u: Tx, t: Tx)
    requires u.minFee > 0 && t.minFee > 0
    ensures Ratio(u) <= Ratio(t) <==> u.fee * t.minFee <= t.fee * u.minFee
  {
    var x, y, a, b := Ratio(u), Ratio(t), u.minFee as real, t.minFee as real;
    assert x * a == u.fee as real && y * b == t.fee as real;
    ScaleOrder(x, y, a * b);
    assert x * (a * b) == (u.fee * t.minFee) as real && y * (a * b) == (t.fee * u.minFee) as real;
  }

  lemma {:induction false} ScaleOrder(x: real, y: real, c: real)
    requires c > 0.0
    ensures x <= y <==> x * c <= y * c
  {
  }

  lemma {:induction false} WorseGoes(txs: seq<Tx>, fees: map<AccountID, real>, rest: seq<Tx>, t: Tx, u: Tx)
    requires (forall x :: x in txs ==> x.minFee > 0) && FeesOf(txs, fees) && BestStay(fees, txs, rest)
    requires t in rest && t in txs && u in txs && u !in rest
    ensures t.source == u.source ==> t.seqNum <= u.seqNum
    ensures t.source != u.source ==> fees[u.source] <= fees[t.source]
    ensures t.source != u.source && fees[u.source] == fees[t.source] ==> t.source < u.source
    ensures (forall x :: x in txs ==> x.fee > 0) ==> PaysNoMore(txs, u.source, t.source)
  {
    assert !SurgeLess(fees, u, t);
    if forall x :: x in txs ==> x.fee > 0 {
      var w :| w in txs && w.source == u.source && fees[u.source] == Ratio(w);
      forall x | x in txs && x.source == t.source
        ensures w.fee * x.minFee <= x.fee * w.minFee
      {
        RatioOrder(w, x);
      }
    }
  }

  /** surgePricingFilter: if there are too many, the `max` that pay best stay, in
      the same order, and whatever was good stays good. */
  method SurgePricingFilter(frame: TxSetFrame, max: nat) returns (ghost fees: map<AccountID, real>)
    requires NoRepeats(frame.transactions) && forall t :: t in frame.transactions ==> t.fee >= 0 && t.minFee > 0
    modifies frame`transactions, frame`hashIsValid
    ensures forall t :: t in frame.transactions ==> t in old(frame.transactions)
    ensures |old(frame.transactions)| <= max ==> frame.transactions == old(frame.transactions)
    ensures |old(frame.transactions)| > max ==>
              && |frame.transactions| == max && FeesOf(old(frame.transactions), fees)
              && BestStay(fees, old(frame.transactions), frame.transactions)
    ensures |old(frame.transactions)| > max ==>
              forall t, u :: t in frame.transactions && u in old(frame.transactions) && u !in frame.transactions ==>
                && (t.source == u.source ==> t.seqNum <= u.seqNum)
                && (t.source != u.source ==> fees[u.source] <= fees[t.source])
                && (t.source != u.source && fees[u.source] == fees[t.source] ==> t.source < u.source)
    ensures (forall t :: t in old(frame.transactions) ==> t.fee > 0) ==>
              forall t, u :: t in frame.transactions && u in old(frame.transactions) && u !in frame.transactions ==>
                PaysNoMore(old(frame.transactions), u.source, t.source)
    ensures NoRepeats(frame.transactions)
    ensures HashSorted(old(frame.transactions)) ==> HashSorted(frame.transactions)
    ensures forall l, a :: AccountGood(l, old(frame.transactions), a) ==> AccountGood(l, frame.transactions, a)
  {
    ghost var txs := frame.transactions;
    fees := map[];
    if |frame.transactions| > max {
      var accountFees := AccountFees(frame.transactions);
      fees := accountFees;
      var temp := SortBySurge(frame.transactions, accountFees);
      assert |temp| == |multiset(temp)| == |frame.transactions|;
      FilterNone(txs);
      frame.RemoveAll(temp[max..], txs, {});
      assert {} + Elements(temp[max..]) == Elements(temp[max..]);
      SurgeKeeps(txs, fees, temp, max, frame.transactions);
      SurgePays(txs, fees, temp, max, frame.transactions);
    }
  }

  lemma {:induction false} SurgeKeeps(txs: seq<Tx>, fees: map<AccountID, real>, temp: seq<Tx>, max: nat, rest: seq<Tx>)
    requires NoRepeats(txs) && (forall t :: t in txs ==> t.fee >= 0)
    requires multiset(temp) == multiset(txs) && SortedBy(SurgeOrder(fees), temp) && max <= |temp|
    requires rest == FilterOut(txs, Elements(temp[max..]))
    ensures |rest| == max && NoRepeats(rest) && (HashSorted(txs) ==> HashSorted(rest))
    ensures forall t :: t in rest ==> t in txs
    ensures forall l, a :: AccountGood(l, txs, a) ==> AccountGood(l, rest, a)
  {
    var gone := Elements(temp[max..]);
    FilterKeepsOrder(txs, gone);
    FilterElements(txs, gone);
    FirstAreLeft(txs, temp, max);
    SurgeClosed(txs, fees, temp, max);
    forall l, a | AccountGood(l, txs, a)
      ensures AccountGood(l, rest, a)
    {
      BeginningGood(l, txs, gone, a);
    }
  }

  lemma {:induction false} SurgePays(txs: seq<Tx>, fees: map<AccountID, real>, temp: seq<Tx>, max: nat, rest: seq<Tx>)
    requires NoRepeats(txs) && (forall t :: t in txs ==> t.minFee > 0) && FeesOf(txs, fees)
    requires multiset(temp) == multiset(txs) && SortedBy(SurgeOrder(fees), temp) && max <= |temp|
    requires rest == FilterOut(txs, Elements(temp[max..])) && forall t :: t in rest ==> t in txs
    ensures BestStay(fees, txs, rest)
    ensures forall t, u :: t in rest && u in txs && u !in rest ==>
              && (t.source == u.source ==> t.seqNum <= u.seqNum)
              && (t.source != u.source ==> fees[u.source] <= fees[t.source])
              && (t.source != u.source && fees[u.source] == fees[t.source] ==> t.source < u.source)
              && ((forall x :: x in txs ==> x.fee > 0) ==> PaysNoMore(txs, u.source, t.source))
  {
    FirstAreLeft(txs, temp, max);
    FirstAreBest(fees, txs, temp, max, rest);
    forall t, u | t in rest && u in txs && u !in rest
      ensures t.source == u.source ==> t.seqNum <= u.seqNum
      ensures t.source != u.source ==> fees[u.source] <= fees[t.source]
      ensures t.source != u.source && fees[u.source] == fees[t.source] ==> t.source < u.source
      ensures (forall x :: x in txs ==> x.fee > 0) ==> PaysNoMore(txs, u.source, t.source)
    {
      WorseGoes(txs, fees, rest, t, u);
    }
  }

  lemma {:induction false} SurgeClosed(txs: seq<Tx>, m: map<AccountID, real>, temp: seq<Tx>, max: nat)
    requires multiset(temp) == multiset(txs) && SortedBy(SurgeOrder(m), temp) && max <= |temp|
    ensures var gone := Elements(temp[max..]);
            forall t, u :: t in txs && u in txs && t.source == u.source && t.seqNum < u.seqNum && u !in gone ==>
              t !in gone
  {
    var gone := Elements(temp[max..]);
    forall t, u | t in txs && u in txs && t.source == u.source && t.seqNum < u.seqNum && u !in gone
      ensures t !in gone
    {
      SameElements(temp, txs, t);
      SameElements(temp, txs, u);
      EarlierIsKept(m, temp, max, t, u);
    }
  }

  /** A proposed set, built on the last closed ledger, trimmed and filtered, is
      always accepted; one that is good and small enough loses nothing. */
  method Propose(frame: TxSetFrame, l: Ledger) returns (removed: seq<Tx>, accepted: bool)
    requires Rising(l.valid) && NoRepeats(frame.transactions) && frame.previousLedgerHash == l.hash
    requires forall t :: t in frame.transactions ==> t.fee >= 0 && t.minFee > 0
    modifies frame`transactions, frame`hashIsValid
    ensures accepted
    ensures Acceptable(l, frame.previousLedgerHash, frame.transactions)
    ensures forall t :: t in frame.transactions ==> t in old(frame.transactions)
    ensures (forall a :: AccountGood(l, old(frame.transactions), a)) && |old(frame.transactions)| <= l.maxTxSetSize ==>
              forall t :: t in old(frame.transactions) ==> t in frame.transactions
  {
    ghost var txs := frame.transactions;
    removed := TrimInvalid(frame, l);
    ghost var rest := frame.transactions;
    ghost var fees := SurgePricingFilter(frame, l.maxTxSetSize);
    if (forall a :: AccountGood(l, txs, a)) && |txs| <= l.maxTxSetSize {
      forall t | t in txs
        ensures t in frame.transactions
      {
        GoodLosesNothing(l, txs, rest, t);
      }
    }
    accepted := CheckValid(frame, l);
  }
}
