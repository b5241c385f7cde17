/** Buckets as sorted files, and the single-pass merge of two of them
    (src/bucket/Bucket.cpp, src/bucket/BucketOutputIterator.cpp).

    A bucket file is a sequence of entries in strictly ascending key order.
    The rest of the project sees a bucket as the map it denotes, `Contents`;
    `FileOfContents` says that nothing is lost by doing so. */
module BucketFile {
  import opened Order

  datatype Slot<+V> = Live(value: V) | Dead

  datatype BucketEntry<+K, +V> = BucketEntry(key: K, slot: Slot<V>)

  datatype Option<+T> = None | Some(value: T)

  type Bucket<!K, V> = map<K, Slot<V>>

  ghost predicate Ascending<K, V>(less: (K, K) -> bool, f: seq<BucketEntry<K, V>>) {
    forall i, j :: 0 <= i < j < |f| ==> less(f[i].key, f[j].key)
  }

  function Contents<K, V>(f: seq<BucketEntry<K, V>>): (m: Bucket<K, V>)
  {
    if f == [] then map[]
    else Contents(f[..|f| - 1])[f[|f| - 1].key := f[|f| - 1].slot]
  }

  ghost predicate Has<K, V>(f: seq<BucketEntry<K, V>>, k: K) {
    exists i :: 0 <= i < |f| && f[i].key == k
  }

  lemma {:induction false} ContentsHas<K(!new), V>(f: seq<BucketEntry<K, V>>, k: K)
    ensures k in Contents(f) <==> Has(f, k)
  {
    if f != [] {
      var f' := f[..|f| - 1];
      ContentsHas(f', k);
      if Has(f, k) && f[|f| - 1].key != k {
        var i :| 0 <= i < |f| && f[i].key == k;
        assert f'[i].key == k;
      }
      if Has(f', k) {
        var i :| 0 <= i < |f'| && f'[i].key == k;
        assert f[i].key == k;
      }
    }
  }

  lemma {:induction false} ContentsAt<K(!new), V>(less: (K, K) -> bool, f: seq<BucketEntry<K, V>>, i: nat)
    requires StrictTotal(less) && Ascending(less, f)
    requires i < |f|
    ensures f[i].key in Contents(f) && Contents(f)[f[i].key] == f[i].slot
  {
    if i < |f| - 1 {
      ContentsAt(less, f[..|f| - 1], i);
      Laws(less, f[i].key, f[|f| - 1].key, f[i].key);
    }
  }

  lemma {:induction false} ContentsAppend<K(!new), V>(f: seq<BucketEntry<K, V>>, e: BucketEntry<K, V>)
    ensures Contents(f + [e]) == Contents(f)[e.key := e.slot]
  {
    assert (f + [e])[..|f|] == f;
  }

  lemma {:induction false} ContentsTake<K(!new), V>(f: seq<BucketEntry<K, V>>, i: nat)
    requires i < |f|
    ensures Contents(f[..i + 1]) == Contents(f[..i])[f[i].key := f[i].slot]
  {
    assert f[..i + 1] == f[..i] + [f[i]];
    ContentsAppend(f[..i], f[i]);
  }

  /** A bucket file is determined by the map it denotes: equal maps, equal
      files, hence equal hashes. */
  lemma {:induction false} FileOfContents<K(!new), V>(less: (K, K) -> bool, f: seq<BucketEntry<K, V>>,
                                                      g: seq<BucketEntry<K, V>>)
    requires StrictTotal(less)
    requires Ascending(less, f) && Ascending(less, g)
    requires Contents(f) == Contents(g)
    ensures f == g
  {
    assert f != [] ==> f[|f| - 1].key in Contents(f);
    assert g != [] ==> g[|g| - 1].key in Contents(g);
    if f != [] && g != [] {
      var x, y := f[|f| - 1], g[|g| - 1];
      ContentsHas(f, y.key);
      ContentsHas(g, x.key);
      assert x.key in Contents(f) && y.key in Contents(g);
      LastKeyGreatest(less, f, y.key);
      LastKeyGreatest(less, g, x.key);
      Laws(less, x.key, y.key, x.key);
      ContentsAt(less, f, |f| - 1);
      ContentsAt(less, g, |g| - 1);
      var f', g' := f[..|f| - 1], g[..|g| - 1];
      DropLast(less, f);
      DropLast(less, g);
      FileOfContents(less, f', g');
      assert f == f' + [x] && g == g' + [y];
    }
  }

  lemma {:induction false} LastKeyGreatest<K(!new), V>(less: (K, K) -> bool, f: seq<BucketEntry<K, V>>, k: K)
    requires StrictTotal(less) && Ascending(less, f) && f != [] && Has(f, k)
    ensures !less(f[|f| - 1].key, k)
  {
    var i :| 0 <= i < |f| && f[i].key == k;
    Laws(less, k, f[|f| - 1].key, k);
  }

  lemma {:induction false} DropLast<K(!new), V>(less: (K, K) -> bool, f: seq<BucketEntry<K, V>>)
    requires StrictTotal(less) && Ascending(less, f) && f != []
    ensures Contents(f[..|f| - 1]) == Contents(f) - {f[|f| - 1].key}
  {
    var f' := f[..|f| - 1];
    var k := f[|f| - 1].key;
    ContentsHas(f', k);
    forall i | 0 <= i < |f'|
      ensures f'[i].key != k
    {
      Laws(less, f[i].key, f[|f| - 1].key, k);
    }
  }

  // ----- What a merge means -----

  ghost predicate Shadowed<K, V>(shadows: seq<Bucket<K, V>>, k: K) {
    exists s :: 0 <= s < |shadows| && k in shadows[s]
  }

  /** The entry a merge takes for a key: the new bucket's if it has one. */
  function Newer<K, V>(oldB: Bucket<K, V>, newB: Bucket<K, V>): (m: Bucket<K, V>) {
    oldB + newB
  }

  /** The bucket a merge denotes: newer entries over older ones, without the
      keys that a shadow has and, at the last level, without tombstones. */
  function Merged<K, V>(oldB: Bucket<K, V>, newB: Bucket<K, V>, shadows: seq<Bucket<K, V>>,
                        keepDead: bool): (m: Bucket<K, V>)
    ensures m.Keys <= oldB.Keys + newB.Keys
  {
    map k | k in Newer(oldB, newB)
            && (keepDead || Newer(oldB, newB)[k].Live?)
            && (forall s :: 0 <= s < |shadows| ==> k !in shadows[s])
          :: Newer(oldB, newB)[k]
  }

  // ----- BucketOutputIterator -----

  /** Putting an entry replaces the last one if it has the same key. */
  function AfterPut<K(==), V>(f: seq<BucketEntry<K, V>>, e: BucketEntry<K, V>): (r: seq<BucketEntry<K, V>>) {
    if f != [] && f[|f| - 1].key == e.key then f[..|f| - 1] + [e] else f + [e]
  }

  lemma {:induction false} PutContents<K(!new), V>(f: seq<BucketEntry<K, V>>, e: BucketEntry<K, V>)
    ensures Contents(AfterPut(f, e)) == Contents(f)[e.key := e.slot]
  {
    if f != [] && f[|f| - 1].key == e.key {
      ContentsAppend(f[..|f| - 1], e);
    } else {
      ContentsAppend(f, e);
    }
  }

  lemma {:induction false} PutAscending<K(!new), V>(less: (K, K) -> bool, f: seq<BucketEntry<K, V>>,
                                                    e: BucketEntry<K, V>)
    requires StrictTotal(less) && Ascending(less, f)
    requires f != [] ==> !less(e.key, f[|f| - 1].key)
    ensures Ascending(less, AfterPut(f, e))
  {
    if f != [] && f[|f| - 1].key == e.key {
      SameKeysAscending(less, f, AfterPut(f, e));
    } else {
      if f != [] {
        Laws(less, f[|f| - 1].key, e.key, e.key);
      }
      AscendingAppend(less, f, e);
    }
  }

  lemma {:induction false} SameKeysAscending<K(!new), V>(less: (K, K) -> bool, f: seq<BucketEntry<K, V>>,
      g: seq<BucketEntry<K, V>>)
    requires Ascending(less, f) && |f| == |g|
    requires forall i :: 0 <= i < |f| ==> f[i].key == g[i].key
    ensures Ascending(less, g)
  {
  }

  lemma {:induction false} AscendingAppend<K(!new), V>(less: (K, K) -> bool, f: seq<BucketEntry<K, V>>,
                                                       e: BucketEntry<K, V>)
    requires StrictTotal(less) && Ascending(less, f)
    requires f != [] ==> less(f[|f| - 1].key, e.key)
    ensures Ascending(less, f + [e])
  {
    forall i | 0 <= i < |f|
      ensures less(f[i].key, e.key)
    {
      Laws(less, f[i].key, f[|f| - 1].key, e.key);
    }
  }

  class OutputIterator<K(==, !new), V(==)> {
    const less: (K, K) -> bool
    const keepDead: bool
    var buf: Option<BucketEntry<K, V>>
    var out: seq<BucketEntry<K, V>>
    var objectsPut: nat

    /** Everything put so far that will reach the file. */
    ghost function Written(): (f: seq<BucketEntry<K, V>>)
      reads this
    {
      match buf
      case None => out
      case Some(e) => out + [e]
    }

    ghost predicate Valid()
      reads this
    {
      && StrictTotal(less)
      && Ascending(less, Written())
      && objectsPut == |out|
      && (buf.None? ==> out == [])
    }

    constructor (less: (K, K) -> bool, keepDead: bool)
      requires StrictTotal(less)
      ensures Valid() && Written() == []
      ensures this.less == less && this.keepDead == keepDead
    {
      this.less := less;
      this.keepDead := keepDead;
      buf := None;
      out := [];
      objectsPut := 0;
    }

    /** The precondition is the program's own assert: entries come in order. */
    method Put(e: BucketEntry<K, V>)
      requires Valid()
      requires buf.Some? ==> !less(e.key, buf.value.key)
      modifies this
      ensures Valid()
      ensures Written() == if keepDead || e.slot.Live? then AfterPut(old(Written()), e) else old(Written())
      ensures buf == if keepDead || e.slot.Live? then Some(e) else old(buf)
    {
      if !keepDead && e.slot.Dead? {
        return;
      }
      PutAscending(less, Written(), e);
      if buf.Some? {
        if less(buf.value.key, e.key) {
          Laws(less, buf.value.key, e.key, e.key);
          out := out + [buf.value];
          objectsPut := objectsPut + 1;
        } else {
          Laws(less, buf.value.key, e.key, e.key);
        }
      }
      buf := Some(e);
    }

    /** Flushes the buffered entry; an empty output is the empty bucket. */
    method GetBucket() returns (file: seq<BucketEntry<K, V>>)
      requires Valid()
      modifies this
      ensures file == old(Written())
      ensures buf.None? && objectsPut == |file|
    {
      if buf.Some? {
        out := out + [buf.value];
        objectsPut := objectsPut + 1;
        buf := None;
      }
      if objectsPut == 0 {
        return [];
      }
      return out;
    }
  }

  // ----- maybePut and merge -----

  ghost function ShadowMaps<K, V>(shadows: seq<seq<BucketEntry<K, V>>>): (r: seq<Bucket<K, V>>)
    ensures |r| == |shadows|
    ensures forall s :: 0 <= s < |r| ==> r[s] == Contents(shadows[s])
  {
    seq(|shadows|, s requires 0 <= s < |shadows| => Contents(shadows[s]))
  }

  /** The first i keys are below `k`. */
  ghost predicate Below<K, V>(less: (K, K) -> bool, f: seq<BucketEntry<K, V>>, i: nat, k: K)
    requires i <= |f|
  {
    forall j :: 0 <= j < i ==> less(f[j].key, k)
  }

  /** Each shadow iterator has only stepped over keys below `k`. */
  ghost predicate Lagging<K, V>(less: (K, K) -> bool, shadows: seq<seq<BucketEntry<K, V>>>, its: seq<nat>, k: K) {
    && |its| == |shadows|
    && forall s :: 0 <= s < |its| ==>
         its[s] <= |shadows[s]| && Below(less, shadows[s], its[s], k)
  }

  lemma {:induction false} LaggingUp<K(!new), V>(less: (K, K) -> bool, shadows: seq<seq<BucketEntry<K, V>>>,
                                                 its: seq<nat>, k: K, k': K)
    requires StrictTotal(less)
    requires Lagging(less, shadows, its, k)
    requires k == k' || less(k, k')
    ensures Lagging(less, shadows, its, k')
  {
    forall s | 0 <= s < |its|
      ensures Below(less, shadows[s], its[s], k')
    {
      forall j | 0 <= j < its[s]
        ensures less(shadows[s][j].key, k')
      {
        Laws(less, shadows[s][j].key, k, k');
      }
    }
  }

  /** Steps a shadow iterator up to the first key that is not below `k`. */
  method AdvanceShadow<K(==, !new), V(==)>(less: (K, K) -> bool, shadow: seq<BucketEntry<K, V>>, it: nat, k: K)
    returns (r: nat)
    requires it <= |shadow| && Below(less, shadow, it, k)
    ensures it <= r <= |shadow| && Below(less, shadow, r, k)
    ensures r < |shadow| ==> !less(shadow[r].key, k)
  {
    r := it;
    while r < |shadow| && less(shadow[r].key, k)
      invariant it <= r <= |shadow| && Below(less, shadow, r, k)
    {
      r := r + 1;
    }
  }

  lemma {:induction false} FoundIsShadowed<K(!new), V>(less: (K, K) -> bool, shadows: seq<seq<BucketEntry<K, V>>>,
                                                       s: nat, it: nat, k: K)
    requires StrictTotal(less) && s < |shadows| && it < |shadows[s]|
    requires !less(k, shadows[s][it].key) && !less(shadows[s][it].key, k)
    ensures Shadowed(ShadowMaps(shadows), k)
  {
    Laws(less, shadows[s][it].key, k, k);
    ContentsHas(shadows[s], k);
    assert k in ShadowMaps(shadows)[s];
  }

  /** Puts the entry unless a shadow has its key. On a hit the iterators of
      the later shadows are left where they were. */
  method MaybePut<K(==, !new), V(==)>(out: OutputIterator<K, V>, e: BucketEntry<K, V>,
                                      shadows: seq<seq<BucketEntry<K, V>>>, its: array<nat>)
    requires out.Valid()
    requires its.Length == |shadows|
    requires forall s :: 0 <= s < |shadows| ==> Ascending(out.less, shadows[s])
    requires Lagging(out.less, shadows, its[..], e.key)
    requires out.buf.Some? ==> out.less(out.buf.value.key, e.key)
    modifies out, its
    ensures out.Valid()
    ensures Lagging(out.less, shadows, its[..], e.key)
    ensures Contents(out.Written()) ==
            if Shadowed(ShadowMaps(shadows), e.key) || !(out.keepDead || e.slot.Live?) then old(Contents(out.Written()))
            else old(Contents(out.Written()))[e.key := e.slot]
    ensures out.buf == old(out.buf) || out.buf == Some(e)
  {
    var s := 0;
    while s < |shadows|
      invariant 0 <= s <= |shadows|
      invariant Lagging(out.less, shadows, its[..], e.key)
      invariant forall t :: 0 <= t < s ==> e.key !in Contents(shadows[t])
      modifies its
    {
      var it: nat := AdvanceShadow(out.less, shadows[s], its[s], e.key);
      ghost var before := its[..];
      its[s] := it;
      assert its[..] == before[s := it];
      if it < |shadows[s]| && !out.less(e.key, shadows[s][it].key) {
        FoundIsShadowed(out.less, shadows, s, it, e.key);
        return;
      }
      AbsentAt(out.less, shadows[s], it, e.key);
      s := s + 1;
    }
    assert !Shadowed(ShadowMaps(shadows), e.key);
    if out.buf.Some? {
      Laws(out.less, out.buf.value.key, e.key, e.key);
    }
    PutContents(out.Written(), e);
    out.Put(e);
  }

  lemma {:induction false} AbsentAt<K(!new), V>(less: (K, K) -> bool, f: seq<BucketEntry<K, V>>, i: nat, k: K)
    requires StrictTotal(less) && Ascending(less, f)
    requires i <= |f|
    requires forall j :: 0 <= j < i ==> less(f[j].key, k)
    requires i < |f| ==> less(k, f[i].key)
    ensures k !in Contents(f)
  {
    ContentsHas(f, k);
    forall j | 0 <= j < |f|
      ensures f[j].key != k
    {
      Laws(less, k, k, k);
      if i <= j {
        Laws(less, k, f[i].key, f[j].key);
      }
    }
  }

  /** Taking one more entry, the newest for its key, extends a merge. */
  lemma {:induction false} MergedStep<K(!new), V>(oldB: Bucket<K, V>, newB: Bucket<K, V>, oldB2: Bucket<K, V>,
                                                  newB2: Bucket<K, V>, shadows: seq<Bucket<K, V>>, keepDead: bool,
                                                  e: BucketEntry<K, V>)
    requires e.key !in oldB && e.key !in newB
    requires Newer(oldB2, newB2) == Newer(oldB, newB)[e.key := e.slot]
    ensures Merged(oldB2, newB2, shadows, keepDead) ==
            if Shadowed(shadows, e.key) || !(keepDead || e.slot.Live?) then Merged(oldB, newB, shadows, keepDead)
            else Merged(oldB, newB, shadows, keepDead)[e.key := e.slot]
  {
  }

  lemma {:induction false} BelowAbsent<K(!new), V>(less: (K, K) -> bool, f: seq<BucketEntry<K, V>>, i: nat, k: K)
    requires StrictTotal(less)
    requires i <= |f| && Below(less, f, i, k)
    ensures k !in Contents(f[..i])
  {
    ContentsHas(f[..i], k);
    Laws(less, k, k, k);
  }

  lemma {:induction false} NextAbove<K(!new), V>(less: (K, K) -> bool, buf: Option<BucketEntry<K, V>>,
                                                 e: BucketEntry<K, V>, k: K)
    requires StrictTotal(less) && less(e.key, k)
    requires buf.Some? ==> buf.value == e || less(buf.value.key, e.key)
    ensures buf.Some? ==> less(buf.value.key, k)
  {
    if buf.Some? {
      Laws(less, buf.value.key, e.key, k);
    }
  }

  /** Merging two sorted files: the result is sorted and denotes `Merged`. */
  method Merge<K(==, !new), V(==)>(less: (K, K) -> bool, oldFile: seq<BucketEntry<K, V>>,
                                   newFile: seq<BucketEntry<K, V>>, shadows: seq<seq<BucketEntry<K, V>>>,
                                   keepDead: bool)
    returns (file: seq<BucketEntry<K, V>>)
    requires StrictTotal(less)
    requires Ascending(less, oldFile) && Ascending(less, newFile)
    requires forall s :: 0 <= s < |shadows| ==> Ascending(less, shadows[s])
    ensures Ascending(less, file)
    ensures Contents(file) == Merged(Contents(oldFile), Contents(newFile), ShadowMaps(shadows), keepDead)
  {
    var out := new OutputIterator(less, keepDead);
    var its := new nat[|shadows|](_ => 0);
    var oi, ni := 0, 0;
    while oi < |oldFile| || ni < |newFile|
      invariant 0 <= oi <= |oldFile| && 0 <= ni <= |newFile|
      invariant fresh(out) && fresh(its)
      invariant out.Valid() && out.less == less && out.keepDead == keepDead
      invariant oi < |oldFile| ==>
                Below(less, newFile, ni, oldFile[oi].key) && Lagging(less, shadows, its[..], oldFile[oi].key)
      invariant ni < |newFile| ==>
                Below(less, oldFile, oi, newFile[ni].key) && Lagging(less, shadows, its[..], newFile[ni].key)
      invariant out.buf.Some? ==>
                (oi < |oldFile| ==> less(out.buf.value.key, oldFile[oi].key))
                && (ni < |newFile| ==> less(out.buf.value.key, newFile[ni].key))
      invariant Contents(out.Written())
                == Merged(Contents(oldFile[..oi]), Contents(newFile[..ni]), ShadowMaps(shadows), keepDead)
      decreases |oldFile| - oi + |newFile| - ni
      modifies out, its
    {
      ghost var oi0, ni0 := oi, ni;
      var e: BucketEntry<K, V>;
      if ni == |newFile| {
        e, oi := oldFile[oi], oi + 1;
      } else if oi == |oldFile| {
        e, ni := newFile[ni], ni + 1;
      } else if less(oldFile[oi].key, newFile[ni].key) {
        e, oi := oldFile[oi], oi + 1;
      } else if less(newFile[ni].key, oldFile[oi].key) {
        e, ni := newFile[ni], ni + 1;
      } else {
        Laws(less, oldFile[oi].key, newFile[ni].key, newFile[ni].key);
        e, oi, ni := newFile[ni], oi + 1, ni + 1;
      }
      TakenBelow(less, oldFile, newFile, oi0, ni0, oi, ni, e);
      MaybePut(out, e, shadows, its);
      TakenMerged(less, oldFile, newFile, ShadowMaps(shadows), keepDead, oi0, ni0, oi, ni, e);
      if oi < |oldFile| {
        LaggingUp(less, shadows, its[..], e.key, oldFile[oi].key);
        NextAbove(less, out.buf, e, oldFile[oi].key);
      }
      if ni < |newFile| {
        LaggingUp(less, shadows, its[..], e.key, newFile[ni].key);
        NextAbove(less, out.buf, e, newFile[ni].key);
      }
    }
    assert oldFile[..oi] == oldFile && newFile[..ni] == newFile;
    file := out.GetBucket();
  }

  /** One round of `Merge` takes entry e from one file or, for equal keys,
      from both. */
  ghost predicate Takes<K, V>(less: (K, K) -> bool, oldFile: seq<BucketEntry<K, V>>, newFile: seq<BucketEntry<K, V>>,
                              oi: nat, ni: nat, oi': nat, ni': nat, e: BucketEntry<K, V>) {
    && oi <= oi' <= |oldFile| && ni <= ni' <= |newFile| && oi' <= oi + 1 && ni' <= ni + 1
    && (if ni' == ni + 1 then
          && e == newFile[ni]
          && (oi' == oi + 1 ==> oldFile[oi].key == e.key)
          && (oi' == oi && oi < |oldFile| ==> less(e.key, oldFile[oi].key))
        else
          oi' == oi + 1 && e == oldFile[oi] && (ni < |newFile| ==> less(e.key, newFile[ni].key)))
  }

  lemma {:induction false} BelowUp<K(!new), V>(less: (K, K) -> bool, f: seq<BucketEntry<K, V>>, i: nat, i': nat, k: K,
                                               k': K)
    requires StrictTotal(less)
    requires i <= i' <= |f| && i' <= i + 1 && Below(less, f, i, k) && (i' == i + 1 ==> f[i].key == k)
    requires less(k, k')
    ensures Below(less, f, i', k')
  {
    forall j | 0 <= j < i'
      ensures less(f[j].key, k')
    {
      Laws(less, f[j].key, k, k');
    }
  }

  lemma {:induction false} TakenBelow<K(!new), V>(less: (K, K) -> bool, oldFile: seq<BucketEntry<K, V>>,
                                                  newFile: seq<BucketEntry<K, V>>, oi: nat, ni: nat, oi': nat,
                                                  ni': nat, e: BucketEntry<K, V>)
    requires StrictTotal(less) && Ascending(less, oldFile) && Ascending(less, newFile)
    requires Takes(less, oldFile, newFile, oi, ni, oi', ni', e)
    requires oi < |oldFile| ==> Below(less, newFile, ni, oldFile[oi].key)
    requires ni < |newFile| ==> Below(less, oldFile, oi, newFile[ni].key)
    ensures Below(less, oldFile, oi, e.key) && Below(less, newFile, ni, e.key)
    ensures oi' < |oldFile| ==> less(e.key, oldFile[oi'].key) && Below(less, newFile, ni', oldFile[oi'].key)
    ensures ni' < |newFile| ==> less(e.key, newFile[ni'].key) && Below(less, oldFile, oi', newFile[ni'].key)
  {
    if oi' < |oldFile| {
      BelowUp(less, newFile, ni, ni', e.key, oldFile[oi'].key);
    }
    if ni' < |newFile| {
      BelowUp(less, oldFile, oi, oi', e.key, newFile[ni'].key);
    }
  }

  lemma {:induction false} TakenNewer<K(!new), V>(less: (K, K) -> bool, oldFile: seq<BucketEntry<K, V>>,
                                                  newFile: seq<BucketEntry<K, V>>, oi: nat, ni: nat, oi': nat,
                                                  ni': nat, e: BucketEntry<K, V>)
    requires Takes(less, oldFile, newFile, oi, ni, oi', ni', e)
    requires e.key !in Contents(newFile[..ni])
    ensures Newer(Contents(oldFile[..oi']), Contents(newFile[..ni'])) ==
            Newer(Contents(oldFile[..oi]), Contents(newFile[..ni]))[e.key := e.slot]
  {
    if oi' == oi + 1 {
      ContentsTake(oldFile, oi);
    }
    if ni' == ni + 1 {
      ContentsTake(newFile, ni);
    }
  }

  lemma {:induction false} TakenMerged<K(!new), V>(less: (K, K) -> bool, oldFile: seq<BucketEntry<K, V>>,
                                                   newFile: seq<BucketEntry<K, V>>, shadows: seq<Bucket<K, V>>,
                                                   keepDead: bool, oi: nat, ni: nat, oi': nat, ni': nat,
                                                   e: BucketEntry<K, V>)
    requires StrictTotal(less) && Takes(less, oldFile, newFile, oi, ni, oi', ni', e)
    requires Below(less, oldFile, oi, e.key) && Below(less, newFile, ni, e.key)
    ensures var m := Merged(Contents(oldFile[..oi]), Contents(newFile[..ni]), shadows, keepDead);
            Merged(Contents(oldFile[..oi']), Contents(newFile[..ni']), shadows, keepDead) ==
            if Shadowed(shadows, e.key) || !(keepDead || e.slot.Live?) then m else m[e.key := e.slot]
  {
    BelowAbsent(less, oldFile, oi, e.key);
    BelowAbsent(less, newFile, ni, e.key);
    TakenNewer(less, oldFile, newFile, oi, ni, oi', ni', e);
    MergedStep(Contents(oldFile[..oi]), Contents(newFile[..ni]), Contents(oldFile[..oi']), Contents(newFile[..ni']),
               shadows, keepDead, e);
  }

  // ----- Bucket::fresh -----

  function ByKey<K, V>(less: (K, K) -> bool): (r: (BucketEntry<K, V>, BucketEntry<K, V>) -> bool) {
    (a: BucketEntry<K, V>, b: BucketEntry<K, V>) => less(a.key, b.key)
  }

  lemma {:induction false} ByKeyWeak<K(!new), V(!new)>(less: (K, K) -> bool)
    requires StrictTotal(less)
    ensures StrictWeak(ByKey<K, V>(less))
  {
    var lt := ByKey<K, V>(less);
    TotalIsWeak(less);
    forall a, b, c
      ensures !lt(a, a)
      ensures lt(a, b) && lt(b, c) ==> lt(a, c)
      ensures !lt(a, b) && !lt(b, c) ==> !lt(a, c)
    {
      WeakLaws(less, a.key, b.key, c.key);
    }
  }

  ghost predicate OneEntryPerKey<K, V>(entries: seq<BucketEntry<K, V>>, m: Bucket<K, V>) {
    && (forall i :: 0 <= i < |entries| ==> entries[i].key in m)
    && (forall k :: k in m ==> BucketEntry(k, m[k]) in entries)
  }

  lemma {:induction false} OneMoreEntry<K, V>(entries: seq<BucketEntry<K, V>>, m: Bucket<K, V>, e: BucketEntry<K, V>)
    requires OneEntryPerKey(entries, m)
    ensures OneEntryPerKey(entries + [e], m[e.key := e.slot])
  {
    var m' := m[e.key := e.slot];
    forall k | k in m'
      ensures BucketEntry(k, m'[k]) in entries + [e]
    {
      assert k != e.key ==> BucketEntry(k, m[k]) in entries;
      assert (entries + [e])[|entries|] == e;
    }
  }

  /** Sorts entries by identity and writes them out; of several with one key
      a single one survives. */
  method WriteSorted<K(==, !new), V(==, !new)>(less: (K, K) -> bool, entries: seq<BucketEntry<K, V>>)
    returns (file: seq<BucketEntry<K, V>>)
    requires StrictTotal(less)
    ensures Ascending(less, file)
    ensures OneEntryPerKey(entries, Contents(file))
  {
    var sorted := Sort(ByKey(less), entries);
    ByKeyWeak<K, V>(less);
    SortSorted(ByKey(less), entries);
    var out := new OutputIterator(less, true);
    for i := 0 to |sorted|
      invariant fresh(out) && out.Valid() && out.less == less && out.keepDead
      invariant out.buf.Some? ==> i > 0 && out.buf.value == sorted[i - 1]
      invariant out.Written() == PutAll(sorted[..i])
    {
      assert i > 0 ==> !ByKey(less)(sorted[i], sorted[i - 1]);
      out.Put(sorted[i]);
      assert sorted[..i + 1][..i] == sorted[..i];
    }
    assert sorted[..|sorted|] == sorted;
    PutAllOneEntry(sorted);
    SamePermutation(sorted, entries, Contents(out.Written()));
    file := out.GetBucket();
  }

  function PutAll<K(==), V>(entries: seq<BucketEntry<K, V>>): (f: seq<BucketEntry<K, V>>) {
    if entries == [] then [] else AfterPut(PutAll(entries[..|entries| - 1]), entries[|entries| - 1])
  }

  lemma {:induction false} PutAllOneEntry<K(!new), V>(entries: seq<BucketEntry<K, V>>)
    ensures OneEntryPerKey(entries, Contents(PutAll(entries)))
  {
    if entries != [] {
      var rest, e := entries[..|entries| - 1], entries[|entries| - 1];
      PutAllOneEntry(rest);
      PutContents(PutAll(rest), e);
      OneMoreEntry(rest, Contents(PutAll(rest)), e);
      assert entries == rest + [e];
    }
  }

  lemma {:induction false} SamePermutation<K, V>(a: seq<BucketEntry<K, V>>, b: seq<BucketEntry<K, V>>, m: Bucket<K, V>)
    requires multiset(a) == multiset(b)
    requires OneEntryPerKey(a, m)
    ensures OneEntryPerKey(b, m)
  {
    forall i | 0 <= i < |b|
      ensures b[i].key in m
    {
      assert b[i] in multiset(a);
      assert b[i] in a;
    }
    forall k | k in m
      ensures BucketEntry(k, m[k]) in b
    {
      assert BucketEntry(k, m[k]) in multiset(a);
    }
  }

  /** The bucket of one ledger: tombstones win over live entries. */
  method Fresh<K(==, !new), V(==, !new)>(less: (K, K) -> bool, live: seq<(K, V)>, dead: seq<K>)
    returns (file: seq<BucketEntry<K, V>>)
    requires StrictTotal(less)
    ensures Ascending(less, file)
    ensures forall k :: k in dead ==> k in Contents(file) && Contents(file)[k] == Dead
    ensures forall p :: p in live ==> p.0 in Contents(file)
    ensures forall k :: k in Contents(file) && k !in dead ==>
            Contents(file)[k].Live? && (k, Contents(file)[k].value) in live
  {
    var liveEntries := seq(|live|, i requires 0 <= i < |live| => BucketEntry(live[i].0, Live(live[i].1)));
    var deadEntries := seq(|dead|, i requires 0 <= i < |dead| => BucketEntry(dead[i], Dead));
    var liveFile := WriteSorted<K, V>(less, liveEntries);
    var deadFile := WriteSorted<K, V>(less, deadEntries);
    file := Merge(less, liveFile, deadFile, [], true);
    ghost var l, d := Contents(liveFile), Contents(deadFile);
    forall k | k in dead
      ensures k in d
    {
      var i :| 0 <= i < |dead| && dead[i] == k;
      assert deadEntries[i].key == k;
    }
    forall p | p in live
      ensures p.0 in l
    {
      var i :| 0 <= i < |live| && live[i] == p;
      assert liveEntries[i].key == p.0;
    }
    forall k | k in d
      ensures d[k] == Dead && k in dead
    {
      var i :| 0 <= i < |deadEntries| && deadEntries[i] == BucketEntry(k, d[k]);
      assert deadEntries[i].key == dead[i];
    }
    forall k | k in l
      ensures l[k].Live? && (k, l[k].value) in live
    {
      var i :| 0 <= i < |liveEntries| && liveEntries[i] == BucketEntry(k, l[k]);
      assert live[i] == (k, l[k].value);
    }
  }
}
