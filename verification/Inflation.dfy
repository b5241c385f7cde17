/** Inflation winners through any nesting of transactions (getInflationWinners
    in src/ledger/LedgerTxn.cpp, loadInflationWinners in
    src/ledger/LedgerTxnAccountSQL.cpp). Votes are unbounded integers. */
module Inflation {
  import opened Order
  import opened BucketFile
  import opened LedgerTypes
  import T = TxnStack

  const MIN_VOTES_TO_INCLUDE: int := 1_000_000_000

  datatype Winner = Winner(dest: StrKey, votes: int)

  /** More votes first, then the account that is greater as a text. */
  predicate Above(a: Winner, b: Winner) {
    a.votes > b.votes || (a.votes == b.votes && a.dest > b.dest)
  }

  lemma {:induction false} AboveTotal()
    ensures StrictTotal(Above)
  {
    forall a: Winner, b: Winner
      ensures !Above(a, a)
      ensures a == b || Above(a, b) || Above(b, a)
    {
    }
    forall a: Winner, b: Winner, c: Winner | Above(a, b) && Above(b, c)
      ensures Above(a, c)
    {
    }
  }

  // ----- Votes -----

  /** What an entry votes for a destination. */
  function Vote(e: LedgerEntry, dest: StrKey): (v: int)
    ensures v >= 0
  {
    if e.data.Account? && e.data.inflationDest == Just(dest)
      && e.data.balance >= MIN_VOTES_TO_INCLUDE then e.data.balance else 0
  }

  /** An account votes with its whole balance, if that is a thousand million or more. */
  lemma {:induction false} VoteLaw(e: LedgerEntry, dest: StrKey)
    requires e.data.Account?
    ensures e.data.inflationDest == Just(dest) && e.data.balance >= 1_000_000_000 ==> Vote(e, dest) == e.data.balance
    ensures e.data.inflationDest == Just(dest) && e.data.balance <= 999_999_999 ==> Vote(e, dest) == 0
    ensures e.data.inflationDest != Just(dest) ==> Vote(e, dest) == 0
  {
  }

  ghost function Sum(m: T.Entries, ks: set<LedgerKey>, dest: StrKey): (v: int)
    requires ks <= m.Keys
    ensures v >= 0
  {
    if ks == {} then 0
    else
      var k :| k in ks;
      Vote(m[k], dest) + Sum(m, ks - {k}, dest)
  }

  lemma {:induction false} SumRemove(m: T.Entries, ks: set<LedgerKey>, k: LedgerKey, dest: StrKey)
    requires ks <= m.Keys && k in ks
    ensures Sum(m, ks, dest) == Vote(m[k], dest) + Sum(m, ks - {k}, dest)
    decreases |ks|
  {
    var j :| j in ks && Sum(m, ks, dest) == Vote(m[j], dest) + Sum(m, ks - {j}, dest);
    if j != k {
      SumRemove(m, ks - {j}, k, dest);
      SumRemove(m, ks - {k}, j, dest);
      assert ks - {j} - {k} == ks - {k} - {j};
    }
  }

  lemma {:induction false} SumSame(m: T.Entries, m': T.Entries, ks: set<LedgerKey>, dest: StrKey)
    requires ks <= m.Keys && ks <= m'.Keys && forall k :: k in ks ==> m[k] == m'[k]
    ensures Sum(m, ks, dest) == Sum(m', ks, dest)
    decreases |ks|
  {
    if ks != {} {
      var k :| k in ks;
      SumRemove(m, ks, k, dest);
      SumRemove(m', ks, k, dest);
      SumSame(m, m', ks - {k}, dest);
    }
  }

  ghost function Total(m: T.Entries, dest: StrKey): (v: int)
    ensures v >= 0
  {
    Sum(m, m.Keys, dest)
  }

  function VoteOf(e: Option<LedgerEntry>, dest: StrKey): (v: int) {
    if e.Some? then Vote(e.value, dest) else 0
  }

  /** Changing one entry moves a total by the difference of its votes. */
  lemma {:induction false} TotalChange(m: T.Entries, k: LedgerKey, e: Option<LedgerEntry>, dest: StrKey)
    ensures Total(if e.Some? then m[k := e.value] else m - {k}, dest)
            == Total(m, dest) - VoteOf(T.Lookup(m, k), dest) + VoteOf(e, dest)
  {
    var m' := if e.Some? then m[k := e.value] else m - {k};
    var rest := m.Keys - {k};
    SumSame(m, m', rest, dest);
    if k in m {
      SumRemove(m, m.Keys, k, dest);
    } else {
      assert rest == m.Keys;
    }
    if e.Some? {
      SumRemove(m', m'.Keys, k, dest);
      assert m'.Keys - {k} == rest;
    } else {
      assert m'.Keys == rest;
    }
  }

  // ----- The answer that is asked for -----

  predicate Listed(ws: seq<Winner>, dest: StrKey) {
    exists i :: 0 <= i < |ws| && ws[i].dest == dest
  }

  lemma {:induction false} ListedAt(ws: seq<Winner>, i: nat)
    requires i < |ws|
    ensures Listed(ws, ws[i].dest)
  {
  }

  predicate Ranked(ws: seq<Winner>) {
    forall i, j :: 0 <= i < j < |ws| ==> Above(ws[i], ws[j])
  }

  predicate AllAbove(ws: seq<Winner>, w: Winner) {
    forall i :: 0 <= i < |ws| ==> Above(ws[i], w)
  }

  /** The winners in order, with their totals. A destination with votes that is
      not listed has too few, or ranks below a full list. */
  ghost predicate Answers(total: StrKey -> int, max: nat, min: int, ws: seq<Winner>) {
    && Ranked(ws) && |ws| <= max
    && (forall i :: 0 <= i < |ws| ==> ws[i].votes == total(ws[i].dest) && ws[i].votes >= min)
    && (forall d :: total(d) > 0 && total(d) >= min && !Listed(ws, d) ==>
      |ws| == max && AllAbove(ws, Winner(d, total(d))))
  }

  /** If votes are asked for at all, there is one answer. */
  lemma {:induction false} AnswerUnique(total: StrKey -> int, max: nat, min: int, a: seq<Winner>, b: seq<Winner>)
    requires min > 0 && Answers(total, max, min, a) && Answers(total, max, min, b)
    ensures a == b
  {
    AnswerPrefix(total, max, min, a, b, if |a| < |b| then |a| else |b|);
    AnswerLength(total, max, min, a, b);
    AnswerLength(total, max, min, b, a);
  }

  /** A place that one answer fills differently is filled by a better one. */
  lemma {:induction false} AnswerPlace(total: StrKey -> int, max: nat, min: int, a: seq<Winner>, b: seq<Winner>, i: nat)
    requires min > 0 && Answers(total, max, min, a) && Answers(total, max, min, b)
    requires i < |a| && i <= |b| && a[..i] == b[..i]
    ensures i < |b| && !Above(a[i], b[i])
  {
    forall j | 0 <= j < i
      ensures a[j] == b[j]
    {
      assert a[..i][j] == b[..i][j];
    }
    var w := a[i];
    assert w == Winner(w.dest, total(w.dest));
    if Listed(b, w.dest) {
      var j :| 0 <= j < |b| && b[j].dest == w.dest;
      assert b[j] == w;
    } else {
      assert AllAbove(b, w);
      assert i < |b| ==> Above(b[i], w);
    }
  }

  lemma {:induction false} AnswerPrefix(total: StrKey -> int, max: nat, min: int, a: seq<Winner>, b: seq<Winner>,
                                        n: nat)
    requires min > 0 && Answers(total, max, min, a) && Answers(total, max, min, b)
    requires n <= |a| && n <= |b|
    ensures a[..n] == b[..n]
  {
    if n > 0 {
      AnswerPrefix(total, max, min, a, b, n - 1);
      AnswerPlace(total, max, min, a, b, n - 1);
      AnswerPlace(total, max, min, b, a, n - 1);
      assert a[n - 1] == b[n - 1];
      assert a[..n] == a[..n - 1] + [a[n - 1]] && b[..n] == b[..n - 1] + [b[n - 1]];
    }
  }

  lemma {:induction false} AnswerLength(total: StrKey -> int, max: nat, min: int, a: seq<Winner>, b: seq<Winner>)
    requires min > 0 && Answers(total, max, min, a) && Answers(total, max, min, b)
    ensures |a| <= |b|
  {
    if |a| > |b| {
      AnswerPrefix(total, max, min, a, b, |b|);
      AnswerPlace(total, max, min, a, b, |b|);
    }
  }

  // ----- Enumerating winners -----

  type Tally = map<StrKey, int>

  function At(t: Tally, d: StrKey): (v: int) {
    if d in t then t[d] else 0
  }

  /** The first `max` of the destinations with enough votes. */
  ghost predicate Enumerated(t: Tally, max: nat, min: int, ws: seq<Winner>) {
    && Ranked(ws) && |ws| <= max
    && (forall i :: 0 <= i < |ws| ==> ws[i].dest in t && ws[i].votes == t[ws[i].dest] >= min)
    && (forall d :: d in t && t[d] >= min && !Listed(ws, d) ==> |ws| == max && AllAbove(ws, Winner(d, t[d])))
  }

  method Eligible(t: Tally, min: int) returns (ws: seq<Winner>)
    ensures forall w :: w in ws <==> w.dest in t && w.votes == t[w.dest] >= min
    ensures NoRepeats(ws)
  {
    ws := [];
    var left := t.Keys;
    while left != {}
      invariant left <= t.Keys
      invariant forall w :: w in ws <==> w.dest in t && w.dest !in left && w.votes == t[w.dest] >= min
      invariant NoRepeats(ws)
    {
      var d :| d in left;
      left := left - {d};
      if t[d] >= min {
        assert Winner(d, t[d]) !in ws;
        ws := ws + [Winner(d, t[d])];
      }
    }
  }

  lemma {:induction false} SortedIsRanked(ws: seq<Winner>, sorted: seq<Winner>)
    requires NoRepeats(ws)
    requires multiset(sorted) == multiset(ws) && SortedBy(Above, sorted)
    ensures Ranked(sorted)
  {
    AboveTotal();
    PermutationNoRepeats(ws, sorted);
    forall i, j | 0 <= i < j < |sorted|
      ensures Above(sorted[i], sorted[j])
    {
      Laws(Above, sorted[i], sorted[j], sorted[j]);
    }
  }

  method EnumerateInflationWinners(t: Tally, max: nat, min: int) returns (ws: seq<Winner>)
    ensures Enumerated(t, max, min, ws)
    ensures forall i, j :: 0 <= i < j < |ws| ==>
              ws[i].votes > ws[j].votes || (ws[i].votes == ws[j].votes && ws[i].dest > ws[j].dest)
  {
    var all := Eligible(t, min);
    ws := Sort(Above, all);
    AboveTotal();
    TotalIsWeak(Above);
    SortSorted(Above, all);
    SortedIsRanked(all, ws);
    CutIsEnumerated(t, max, min, all, ws);
    if |ws| > max {
      ws := ws[..max];
    }
  }

  lemma {:induction false} CutIsEnumerated(t: Tally, max: nat, min: int, all: seq<Winner>, ws: seq<Winner>)
    requires forall w :: w in all <==> w.dest in t && w.votes == t[w.dest] >= min
    requires multiset(ws) == multiset(all) && Ranked(ws)
    ensures Enumerated(t, max, min, if |ws| > max then ws[..max] else ws)
  {
    var r := if |ws| > max then ws[..max] else ws;
    forall i | 0 <= i < |r|
      ensures r[i].dest in t && r[i].votes == t[r[i].dest] >= min
    {
      SameElements(ws, all, r[i]);
    }
    forall d | d in t && t[d] >= min && !Listed(r, d)
      ensures |r| == max && AllAbove(r, Winner(d, t[d]))
    {
      var w := Winner(d, t[d]);
      SameElements(ws, all, w);
      var j :| 0 <= j < |ws| && ws[j] == w;
    }
  }

  // ----- One transaction over its parent's answer -----

  function Dests(ws: seq<Winner>): (s: set<StrKey>)
    ensures forall d :: d in s <==> Listed(ws, d)
  {
    set i | 0 <= i < |ws| :: ws[i].dest
  }

  /** The votes listed for a destination, or 0. */
  function VotesIn(ws: seq<Winner>, d: StrKey): (v: int) {
    if ws == [] then 0 else if ws[|ws| - 1].dest == d then ws[|ws| - 1].votes else VotesIn(ws[..|ws| - 1], d)
  }

  function Combined(parent: seq<Winner>, delta: Tally, min: int): (t: Tally) {
    map d | d in Dests(parent) + delta.Keys
      && (d in Dests(parent) || delta[d] >= min) :: VotesIn(parent, d) + At(delta, d)
  }

  predicate DistinctDests(ws: seq<Winner>) {
    forall i, j :: 0 <= i < j < |ws| ==> ws[i].dest != ws[j].dest
  }

  function Base(parent: seq<Winner>): (t: Tally) {
    map d | d in Dests(parent) :: VotesIn(parent, d)
  }

  lemma {:induction false} BaseOne(parent: seq<Winner>, i: nat)
    requires i < |parent| && DistinctDests(parent)
    ensures parent[i].dest !in Base(parent[..i])
    ensures Base(parent[..i + 1]) == Base(parent[..i])[parent[i].dest := parent[i].votes]
  {
    assert parent[..i + 1][..i] == parent[..i];
    OneMoreListed(parent, i);
  }

  /** As `Combined`, for the part of the deltas not left. */
  function CombinedSoFar(parent: seq<Winner>, delta: Tally, left: set<StrKey>, min: int): (t: Tally) {
    map d | d in Dests(parent) + (delta.Keys - left) && (d in Dests(parent) || delta[d] >= min) ::
      VotesIn(parent, d) + (if d in left then 0 else At(delta, d))
  }

  lemma {:induction false} CombineOne(parent: seq<Winner>, delta: Tally, left: set<StrKey>, min: int, d: StrKey)
    requires d in left && left <= delta.Keys
    ensures var t := CombinedSoFar(parent, delta, left, min);
            CombinedSoFar(parent, delta, left - {d}, min) == if d in t
              || delta[d] >= min then t[d := At(t, d) + delta[d]] else t
  {
    NotListed(parent, d);
  }

  lemma {:induction false} CombineStart(parent: seq<Winner>, delta: Tally, min: int)
    ensures CombinedSoFar(parent, delta, delta.Keys, min) == Base(parent)
  {
  }

  lemma {:induction false} CombineEnd(parent: seq<Winner>, delta: Tally, min: int)
    ensures CombinedSoFar(parent, delta, {}, min) == Combined(parent, delta, min)
  {
    assert delta.Keys - {} == delta.Keys;
  }

  method BaseVotes(parent: seq<Winner>) returns (t: Tally)
    requires DistinctDests(parent)
    ensures t == Base(parent)
  {
    t := map[];
    for i := 0 to |parent|
      invariant t == Base(parent[..i])
    {
      BaseOne(parent, i);
      if parent[i].dest !in t {
        t := t[parent[i].dest := parent[i].votes];
      }
    }
    assert parent[..|parent|] == parent;
  }

  /** getTotalVotes. */
  method GetTotalVotes(parent: seq<Winner>, delta: Tally, min: int) returns (t: Tally)
    requires DistinctDests(parent)
    ensures t == Combined(parent, delta, min)
  {
    CombineStart(parent, delta, min);
    t := BaseVotes(parent);
    var left := delta.Keys;
    while left != {}
      invariant left <= delta.Keys
      invariant t == CombinedSoFar(parent, delta, left, min)
    {
      var d :| d in left;
      CombineOne(parent, delta, left, min, d);
      left := left - {d};
      if d in t || delta[d] >= min {
        t := t[d := At(t, d) + delta[d]];
      }
    }
    CombineEnd(parent, delta, min);
  }

  lemma {:induction false} OneMoreListed(ws: seq<Winner>, i: nat)
    requires i < |ws|
    ensures Dests(ws[..i + 1]) == Dests(ws[..i]) + {ws[i].dest}
  {
    forall d
      ensures Listed(ws[..i + 1], d) <==> Listed(ws[..i], d) || d == ws[i].dest
    {
      if Listed(ws[..i], d) {
        var j :| 0 <= j < i && ws[..i][j].dest == d;
        assert ws[..i + 1][j].dest == d;
      }
      if d == ws[i].dest {
        assert ws[..i + 1][i].dest == d;
      }
    }
  }

  lemma {:induction false} NotListed(ws: seq<Winner>, d: StrKey)
    ensures !Listed(ws, d) ==> VotesIn(ws, d) == 0
  {
    if ws != [] && !Listed(ws, d) {
      var rest := ws[..|ws| - 1];
      assert !Listed(rest, d);
      NotListed(rest, d);
    }
  }

  // ----- Counting -----

  lemma {:induction false} DestsCount(ws: seq<Winner>)
    ensures |Dests(ws)| <= |ws|
    ensures DistinctDests(ws) ==> |Dests(ws)| == |ws|
  {
    if ws != [] {
      var n := |ws| - 1;
      DestsCount(ws[..n]);
      assert ws[..n + 1] == ws;
      OneMoreListed(ws, n);
      if DistinctDests(ws) {
        assert !Listed(ws[..n], ws[n].dest);
      }
    } else {
      assert Dests(ws) == {};
    }
  }

  function Changed(delta: Tally): (s: set<StrKey>) {
    set d | d in delta && delta[d] != 0
  }

  lemma {:induction false} AtLeast(a: set<StrKey>, b: set<StrKey>)
    ensures |a - b| >= |a| - |b|
  {
    assert a == (a - b) + (a * b);
    assert |a * b| <= |b| by {
      SubsetSize(a * b, b);
    }
  }

  // ----- When the answer is right -----

  /** A destination that had enough votes to be in the parent's answer but is
      missing from it, and yet rises (or, when no votes are asked for, does not
      fall). */
  predicate Missed(pt: StrKey -> int, delta: Tally, ws: seq<Winner>, min: int, newMin: int, d: StrKey) {
    pt(d) > 0 && pt(d) >= newMin && !Listed(ws, d) && d in delta && (delta[d] > 0 || delta[d] >= min)
  }

  /** Nothing is missed unless the parent's answer was cut off. */
  lemma {:induction false} MissedOnlyIfCut(pt: StrKey -> int, delta: Tally, ws: seq<Winner>, min: int, newMax: nat,
                                           newMin: int, d: StrKey)
    requires Answers(pt, newMax, newMin, ws) && Missed(pt, delta, ws, min, newMin, d)
    ensures |ws| == newMax
  {
  }

  /** The numbers a transaction works with. */
  ghost predicate Asks(delta: Tally, max: nat, min: int, newMax: nat, newMin: int) {
    && newMax == max + |Changed(delta)|
    && exists inc :: MaxIncrease(delta, inc) && newMin == NewMin(min, inc)
  }

  ghost predicate MaxIncrease(delta: Tally, inc: int) {
    && inc >= 0 && (forall d :: d in delta ==> delta[d] <= inc)
    && (inc == 0 || exists d :: d in delta && delta[d] == inc)
  }

  function NewMin(min: int, inc: int): (r: int) {
    if min > inc then min - inc else 0
  }

  ghost predicate Follows(pt: StrKey -> int, ct: StrKey -> int, delta: Tally) {
    forall d :: pt(d) >= 0 && ct(d) >= 0 && ct(d) == pt(d) + At(delta, d)
  }

  lemma {:induction false} ListedVotes(ws: seq<Winner>, pt: StrKey -> int, d: StrKey)
    requires (forall i :: 0 <= i < |ws| ==> ws[i].votes == pt(ws[i].dest)) && Listed(ws, d)
    ensures VotesIn(ws, d) == pt(d)
  {
    var rest := ws[..|ws| - 1];
    if ws[|ws| - 1].dest != d {
      var j :| 0 <= j < |ws| && ws[j].dest == d;
      assert rest[j].dest == d;
      ListedVotes(rest, pt, d);
    }
  }

  lemma {:induction false} CombinedRight(pt: StrKey -> int, ct: StrKey -> int, delta: Tally, ws: seq<Winner>, max: nat,
                                         min: int, newMax: nat, newMin: int, d: StrKey)
    requires Follows(pt, ct, delta) && Asks(delta, max, min, newMax, newMin)
    requires Answers(pt, newMax, newMin, ws) && !Missed(pt, delta, ws, min, newMin, d)
    ensures d in Combined(ws, delta, min) ==> Combined(ws, delta, min)[d] == ct(d)
  {
    if Listed(ws, d) {
      ListedVotes(ws, pt, d);
    } else {
      NotListed(ws, d);
    }
  }

  /** A destination left out of the count ranked below everything listed, and
      has not risen. */
  lemma {:induction false} LeftOut(pt: StrKey -> int, ct: StrKey -> int, delta: Tally, ws: seq<Winner>, max: nat,
                                   min: int, newMax: nat, newMin: int, d: StrKey)
    requires Follows(pt, ct, delta) && Asks(delta, max, min, newMax, newMin) && min >= 0
    requires Answers(pt, newMax, newMin, ws) && !Missed(pt, delta, ws, min, newMin, d)
    requires ct(d) > 0 && ct(d) >= min && d !in Combined(ws, delta, min)
    ensures ct(d) <= pt(d) && |ws| == newMax && AllAbove(ws, Winner(d, pt(d)))
  {
    assert !Listed(ws, d);
    assert ct(d) == pt(d) + At(delta, d);
  }

  /** Unchanged destinations of the parent's answer that stay ahead. */
  function Unchanged(ws: seq<Winner>, delta: Tally): (s: set<StrKey>) {
    Dests(ws) - Changed(delta)
  }

  lemma {:induction false} StaysAhead(pt: StrKey -> int, ct: StrKey -> int, delta: Tally, ws: seq<Winner>, max: nat,
                                      min: int, newMin: int, d: StrKey, u: StrKey)
    requires Follows(pt, ct, delta) && Answers(pt, max, newMin, ws)
    requires AllAbove(ws, Winner(d, pt(d))) && min <= ct(d) <= pt(d) && u in Unchanged(ws, delta)
    ensures ct(u) >= min && u in Combined(ws, delta, min) && Above(Winner(u, ct(u)), Winner(d, ct(d)))
  {
    var i :| 0 <= i < |ws| && ws[i].dest == u;
    assert Above(ws[i], Winner(d, pt(d)));
  }

  lemma {:induction false} AboveAll(rs: seq<Winner>, v: Winner, w: Winner)
    requires AllAbove(rs, v) && Above(v, w)
    ensures AllAbove(rs, w)
  {
  }

  lemma {:induction false} BelowTheCut(ct: StrKey -> int, t: Tally, max: nat, min: int, rs: seq<Winner>,
                                       us: set<StrKey>, w: Winner)
    requires Enumerated(t, max, min, rs) && |us| >= max
    requires forall u :: u in us ==> u in t && t[u] == ct(u) >= min && Above(Winner(u, ct(u)), w)
    ensures |rs| == max && AllAbove(rs, w)
  {
    if u :| u in us && !Listed(rs, u) {
      AboveAll(rs, Winner(u, t[u]), w);
    } else {
      DestsCount(rs);
      SubsetSize(us, Dests(rs));
      forall i | 0 <= i < |rs|
        ensures Above(rs[i], w)
      {
        ListedAt(rs, i);
        assert rs[i].dest in us;
        assert rs[i] == Winner(rs[i].dest, ct(rs[i].dest));
      }
    }
  }

  /** If nothing is missed, the combined answer is the transaction's answer. */
  lemma {:induction false} CombinedAnswers(pt: StrKey -> int, ct: StrKey -> int, delta: Tally, ws: seq<Winner>,
                                           max: nat, min: int, newMax: nat, newMin: int, rs: seq<Winner>)
    requires Follows(pt, ct, delta) && Asks(delta, max, min, newMax, newMin) && min >= 0
    requires Answers(pt, newMax, newMin, ws) && (forall d :: !Missed(pt, delta, ws, min, newMin, d))
    requires Enumerated(Combined(ws, delta, min), max, min, rs)
    ensures Answers(ct, max, min, rs)
  {
    var t := Combined(ws, delta, min);
    forall d
      ensures d in t ==> t[d] == ct(d)
    {
      CombinedRight(pt, ct, delta, ws, max, min, newMax, newMin, d);
    }
    forall d | ct(d) > 0 && ct(d) >= min && !Listed(rs, d)
      ensures |rs| == max && AllAbove(rs, Winner(d, ct(d)))
    {
      if d !in t {
        LeftOut(pt, ct, delta, ws, max, min, newMax, newMin, d);
        ManyAhead(pt, ct, delta, ws, max, min, newMax, newMin, d);
        BelowTheCut(ct, t, max, min, rs, Unchanged(ws, delta), Winner(d, ct(d)));
      }
    }
  }

  lemma {:induction false} ManyAhead(pt: StrKey -> int, ct: StrKey -> int, delta: Tally, ws: seq<Winner>, max: nat,
                                     min: int, newMax: nat, newMin: int, d: StrKey)
    requires Follows(pt, ct, delta) && Asks(delta, max, min, newMax, newMin)
    requires Answers(pt, newMax, newMin, ws)
    requires |ws| == newMax && AllAbove(ws, Winner(d, pt(d))) && min <= ct(d) <= pt(d)
    ensures var t, us := Combined(ws, delta, min), Unchanged(ws, delta);
            |us| >= max && forall u :: u in us ==>
              u in t && t[u] == ct(u) >= min && Above(Winner(u, ct(u)), Winner(d, ct(d)))
  {
    DestsCount(ws);
    RankedDistinct(pt, newMax, newMin, ws);
    AtLeast(Dests(ws), Changed(delta));
    forall u | u in Unchanged(ws, delta)
      ensures u in Combined(ws, delta, min) && Combined(ws, delta, min)[u] == ct(u) >= min
              && Above(Winner(u, ct(u)), Winner(d, ct(d)))
    {
      StaysAhead(pt, ct, delta, ws, newMax, min, newMin, d, u);
      CombinedRight(pt, ct, delta, ws, max, min, newMax, newMin, u);
    }
  }

  lemma {:induction false} RankedDistinct(pt: StrKey -> int, max: nat, min: int, ws: seq<Winner>)
    requires Answers(pt, max, min, ws)
    ensures DistinctDests(ws)
  {
    forall i, j | 0 <= i < j < |ws|
      ensures ws[i].dest != ws[j].dest
    {
      assert Above(ws[i], ws[j]);
    }
  }

  // ----- Exactly when the answer is right -----

  predicate Ahead(ct: StrKey -> int, us: set<StrKey>, w: Winner) {
    forall u :: u in us ==> Above(Winner(u, ct(u)), w)
  }

  /** Too few votes, or `max` others ranking higher. */
  ghost predicate OutOfTop(ct: StrKey -> int, max: nat, min: int, d: StrKey) {
    ct(d) < min || exists us: set<StrKey> :: |us| >= max && Ahead(ct, us, Winner(d, ct(d)))
  }

  /** Counted, and with the right total. */
  predicate Good(ct: StrKey -> int, t: Tally, us: set<StrKey>) {
    forall u :: u in us ==> u in t && t[u] == ct(u)
  }

  /** How many of a finite set of destinations rank above one. */
  function Better(ct: StrKey -> int, all: set<StrKey>, w: Winner): (s: set<StrKey>) {
    set u | u in all && Above(Winner(u, ct(u)), w)
  }

  lemma {:induction false} BetterShrinks(ct: StrKey -> int, all: set<StrKey>, u: StrKey, w: Winner)
    requires u in all && Above(Winner(u, ct(u)), w)
    ensures |Better(ct, all, Winner(u, ct(u)))| < |Better(ct, all, w)|
  {
    var a, b := Better(ct, all, Winner(u, ct(u))), Better(ct, all, w);
    assert u in b && u !in a;
    SubsetSize(a, b - {u});
  }

  /** A missed destination is counted too low, if at all. */
  lemma {:induction false} MissedTooLow(pt: StrKey -> int, ct: StrKey -> int, delta: Tally, ws: seq<Winner>, min: int,
                                        newMin: int, d: StrKey)
    requires Follows(pt, ct, delta) && Missed(pt, delta, ws, min, newMin, d)
    ensures d in Combined(ws, delta, min) ==> Combined(ws, delta, min)[d] < ct(d)
  {
    NotListed(ws, d);
  }

  ghost predicate MissedOutOfTop(pt: StrKey -> int, ct: StrKey -> int, delta: Tally, ws: seq<Winner>, max: nat,
                                 min: int, newMin: int) {
    forall d :: Missed(pt, delta, ws, min, newMin, d) ==> OutOfTop(ct, max, min, d)
  }

  /** If `max` destinations rank above w, then so do `max` rightly counted ones:
      wherever one is miscounted, look further up. */
  lemma {:induction false} GoodAhead(pt: StrKey -> int, ct: StrKey -> int, delta: Tally, ws: seq<Winner>, max: nat,
                                     min: int, newMax: nat, newMin: int, all: set<StrKey>, us: set<StrKey>, w: Winner)
    returns (gs: set<StrKey>)
    requires Follows(pt, ct, delta) && Asks(delta, max, min, newMax, newMin) && min > 0
    requires Answers(pt, newMax, newMin, ws) && MissedOutOfTop(pt, ct, delta, ws, max, min, newMin)
    requires (forall d :: ct(d) > 0 ==> d in all) && w.votes >= min
    requires |us| >= max && Ahead(ct, us, w)
    ensures |gs| >= max && Ahead(ct, gs, w) && Good(ct, Combined(ws, delta, min), gs)
    decreases |Better(ct, all, w)|
  {
    var t := Combined(ws, delta, min);
    if u :| u in us && Missed(pt, delta, ws, min, newMin, u) {
      assert OutOfTop(ct, max, min, u);
      var higher :| |higher| >= max && Ahead(ct, higher, Winner(u, ct(u)));
      BetterShrinks(ct, all, u, w);
      gs := GoodAhead(pt, ct, delta, ws, max, min, newMax, newMin, all, higher, Winner(u, ct(u)));
      AheadThrough(ct, gs, u, w);
    } else if u :| u in us && u !in t {
      LeftOut(pt, ct, delta, ws, max, min, newMax, newMin, u);
      gs := GoodUnchanged(pt, ct, delta, ws, max, min, newMax, newMin, u);
      AheadThrough(ct, gs, u, w);
    } else {
      gs := us;
      AllGood(pt, ct, delta, ws, max, min, newMax, newMin, us);
    }
  }

  lemma {:induction false} AheadThrough(ct: StrKey -> int, gs: set<StrKey>, u: StrKey, w: Winner)
    requires Ahead(ct, gs, Winner(u, ct(u))) && Above(Winner(u, ct(u)), w)
    ensures Ahead(ct, gs, w)
  {
  }

  lemma {:induction false} GoodUnchanged(pt: StrKey -> int, ct: StrKey -> int, delta: Tally, ws: seq<Winner>, max: nat,
                                         min: int, newMax: nat, newMin: int, u: StrKey) returns (gs: set<StrKey>)
    requires Follows(pt, ct, delta) && Asks(delta, max, min, newMax, newMin)
    requires Answers(pt, newMax, newMin, ws)
    requires |ws| == newMax && AllAbove(ws, Winner(u, pt(u))) && min <= ct(u) <= pt(u)
    ensures |gs| >= max && Ahead(ct, gs, Winner(u, ct(u))) && Good(ct, Combined(ws, delta, min), gs)
  {
    ManyAhead(pt, ct, delta, ws, max, min, newMax, newMin, u);
    gs := Unchanged(ws, delta);
  }

  lemma {:induction false} AllGood(pt: StrKey -> int, ct: StrKey -> int, delta: Tally, ws: seq<Winner>, max: nat,
                                   min: int, newMax: nat, newMin: int, us: set<StrKey>)
    requires Follows(pt, ct, delta) && Asks(delta, max, min, newMax, newMin) && Answers(pt, newMax, newMin, ws)
    requires forall u :: u in us ==> u in Combined(ws, delta, min) && !Missed(pt, delta, ws, min, newMin, u)
    ensures Good(ct, Combined(ws, delta, min), us)
  {
    forall u | u in us
      ensures Combined(ws, delta, min)[u] == ct(u)
    {
      CombinedRight(pt, ct, delta, ws, max, min, newMax, newMin, u);
    }
  }

  lemma {:induction false} PushedOut(pt: StrKey -> int, ct: StrKey -> int, delta: Tally, ws: seq<Winner>, max: nat,
                                     min: int, newMax: nat, newMin: int, all: set<StrKey>, rs: seq<Winner>, d: StrKey)
    requires Follows(pt, ct, delta) && Asks(delta, max, min, newMax, newMin) && min > 0
    requires Answers(pt, newMax, newMin, ws) && MissedOutOfTop(pt, ct, delta, ws, max, min, newMin)
    requires (forall x :: ct(x) > 0 ==> x in all)
    requires Enumerated(Combined(ws, delta, min), max, min, rs)
    requires Missed(pt, delta, ws, min, newMin, d) && ct(d) >= min
    ensures |rs| == max && AllAbove(rs, Winner(d, ct(d)))
  {
    var w := Winner(d, ct(d));
    var us :| |us| >= max && Ahead(ct, us, w);
    var gs := GoodAhead(pt, ct, delta, ws, max, min, newMax, newMin, all, us, w);
    BelowTheCut(ct, Combined(ws, delta, min), max, min, rs, gs, w);
  }

  /** A missed destination of the top makes the answer wrong. */
  lemma {:induction false} MissedSpoils(pt: StrKey -> int, ct: StrKey -> int, delta: Tally, ws: seq<Winner>, max: nat,
                                        min: int, newMin: int, rs: seq<Winner>, d: StrKey)
    requires Follows(pt, ct, delta) && min > 0
    requires Enumerated(Combined(ws, delta, min), max, min, rs) && Answers(ct, max, min, rs)
    requires Missed(pt, delta, ws, min, newMin, d)
    ensures OutOfTop(ct, max, min, d)
  {
    MissedTooLow(pt, ct, delta, ws, min, newMin, d);
    if ct(d) >= min {
      assert !Listed(rs, d);
      DestsCount(rs);
      RankedDistinct(ct, max, min, rs);
      var us := Dests(rs);
      forall u | u in us
        ensures Above(Winner(u, ct(u)), Winner(d, ct(d)))
      {
        var i :| 0 <= i < |rs| && rs[i].dest == u;
        assert rs[i] == Winner(u, ct(u));
      }
      assert |us| >= max && Ahead(ct, us, Winner(d, ct(d)));
    }
  }

  /** The answer is right exactly when every missed destination is out of the
      top anyway. */
  lemma {:induction false} RightIffMissedOut(pt: StrKey -> int, ct: StrKey -> int, delta: Tally, ws: seq<Winner>,
                                             max: nat, min: int, newMax: nat, newMin: int, all: set<StrKey>,
                                             rs: seq<Winner>)
    requires Follows(pt, ct, delta) && Asks(delta, max, min, newMax, newMin) && min > 0
    requires Answers(pt, newMax, newMin, ws) && (forall d :: ct(d) > 0 ==> d in all)
    requires Enumerated(Combined(ws, delta, min), max, min, rs)
    ensures Answers(ct, max, min, rs) <==> MissedOutOfTop(pt, ct, delta, ws, max, min, newMin)
  {
    if Answers(ct, max, min, rs) {
      forall d | Missed(pt, delta, ws, min, newMin, d)
        ensures OutOfTop(ct, max, min, d)
      {
        MissedSpoils(pt, ct, delta, ws, max, min, newMin, rs, d);
      }
    }
    if MissedOutOfTop(pt, ct, delta, ws, max, min, newMin) {
      RightIfMissedOut(pt, ct, delta, ws, max, min, newMax, newMin, all, rs);
    }
  }

  lemma {:induction false} RightIfMissedOut(pt: StrKey -> int, ct: StrKey -> int, delta: Tally, ws: seq<Winner>,
                                            max: nat, min: int, newMax: nat, newMin: int, all: set<StrKey>,
                                            rs: seq<Winner>)
    requires Follows(pt, ct, delta) && Asks(delta, max, min, newMax, newMin) && min > 0
    requires Answers(pt, newMax, newMin, ws) && (forall d :: ct(d) > 0 ==> d in all)
    requires Enumerated(Combined(ws, delta, min), max, min, rs) && MissedOutOfTop(pt, ct, delta, ws, max, min, newMin)
    ensures Answers(ct, max, min, rs)
  {
    var t := Combined(ws, delta, min);
    forall i | 0 <= i < |rs|
      ensures rs[i].votes == ct(rs[i].dest)
    {
      var d := rs[i].dest;
      if Missed(pt, delta, ws, min, newMin, d) {
        MissedTooLow(pt, ct, delta, ws, min, newMin, d);
        PushedOut(pt, ct, delta, ws, max, min, newMax, newMin, all, rs, d);
        assert false;
      }
      CombinedRight(pt, ct, delta, ws, max, min, newMax, newMin, d);
    }
    forall d | ct(d) > 0 && ct(d) >= min && !Listed(rs, d)
      ensures |rs| == max && AllAbove(rs, Winner(d, ct(d)))
    {
      if Missed(pt, delta, ws, min, newMin, d) {
        PushedOut(pt, ct, delta, ws, max, min, newMax, newMin, all, rs, d);
      } else if d in t {
        CombinedRight(pt, ct, delta, ws, max, min, newMax, newMin, d);
      } else {
        LeftOut(pt, ct, delta, ws, max, min, newMax, newMin, d);
        ManyAhead(pt, ct, delta, ws, max, min, newMax, newMin, d);
        BelowTheCut(ct, t, max, min, rs, Unchanged(ws, delta), Winner(d, ct(d)));
      }
    }
  }
}
