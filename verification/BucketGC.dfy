/** Keeping and dropping bucket files (src/bucket/BucketManagerImpl.cpp,
    src/bucket/PublishQueueBuckets.cpp, the publish queue of
    src/history/HistoryManagerImpl.cpp and src/history/HistoryArchive.cpp). */
module BucketGC {
  import opened BucketFile
  import opened BucketList
  import opened FutureBucket
  import opened Restart

  // ----- What a state names -----

  function SavedHashes(s: Saved): (hs: seq<Hash>) {
    match s
    case SavedInputs(c, sn, sh) => [c, sn] + sh
    case SavedOutput(h) => [h]
    case _ => []
  }

  predicate LevelNames(l: SavedLevel, h: Hash) {
    h == l.curr || h == l.snap || h in SavedHashes(l.next)
  }

  predicate Names(has: seq<SavedLevel>, h: Hash) {
    exists i :: 0 <= i < |has| && LevelNames(has[i], h)
  }

  /** HistoryArchiveState::allBuckets. */
  function AllBuckets(has: seq<SavedLevel>): (s: set<Hash>) {
    if has == [] then {}
    else
      var l := has[|has| - 1];
      AllBuckets(has[..|has| - 1]) + {l.curr, l.snap} + (set h | h in SavedHashes(l.next))
  }

  lemma {:induction false} OneMoreLevel(has: seq<SavedLevel>, i: nat)
    requires i < |has|
    ensures AllBuckets(has[..i + 1])
            == AllBuckets(has[..i]) + {has[i].curr, has[i].snap} + (set h | h in SavedHashes(has[i].next))
  {
    assert has[..i + 1][..i] == has[..i];
  }

  lemma {:induction false} NameIsIncluded(has: seq<SavedLevel>, i: nat, h: Hash)
    requires i < |has| && LevelNames(has[i], h)
    ensures h in AllBuckets(has)
  {
    var rest := has[..|has| - 1];
    if i < |rest| {
      assert rest[i] == has[i];
      NameIsIncluded(rest, i, h);
    }
  }

  lemma {:induction false} IncludedIsName(has: seq<SavedLevel>, h: Hash) returns (i: nat)
    requires h in AllBuckets(has)
    ensures i < |has| && LevelNames(has[i], h)
  {
    var rest := has[..|has| - 1];
    if h in AllBuckets(rest) {
      i := IncludedIsName(rest, h);
      assert rest[i] == has[i];
    } else {
      i := |has| - 1;
    }
  }

  lemma {:induction false} AllBucketsAreNamed(has: seq<SavedLevel>, h: Hash)
    ensures h in AllBuckets(has) <==> Names(has, h)
  {
    if h in AllBuckets(has) {
      var i := IncludedIsName(has, h);
    }
    if Names(has, h) {
      var i :| 0 <= i < |has| && LevelNames(has[i], h);
      NameIsIncluded(has, i, h);
    }
  }

  // ----- Reference counts -----

  function Count(m: map<Hash, nat>, h: Hash): (c: nat) {
    if h in m then m[h] else 0
  }

  /** No zero is kept: a bucket is in the map exactly when it is used. */
  predicate NoZeros(m: map<Hash, nat>) {
    forall h :: h in m ==> m[h] > 0
  }

  function Added(m: map<Hash, nat>, s: set<Hash>): (r: map<Hash, nat>) {
    map h | h in m.Keys + s :: Count(m, h) + (if h in s then 1 else 0)
  }

  function Removed(m: map<Hash, nat>, s: set<Hash>): (r: map<Hash, nat>) {
    map h | h in m && (h in s ==> m[h] > 1) :: if h in s then m[h] - 1 else m[h]
  }

  function SetOf(hs: seq<Hash>): (s: set<Hash>) {
    set h | h in hs
  }

  lemma {:induction false} SetOfMore(hs: seq<Hash>, i: nat)
    requires i < |hs|
    ensures SetOf(hs[..i + 1]) == SetOf(hs[..i]) + {hs[i]}
  {
    assert hs[..i + 1] == hs[..i] + [hs[i]];
  }

  lemma {:induction false} AddedOneMore(m: map<Hash, nat>, s: set<Hash>, h: Hash)
    requires h !in s
    ensures Added(Added(m, s), {h}) == Added(m, s + {h})
  {
  }

  class PublishQueueBuckets {
    var usage: map<Hash, nat>

    constructor ()
      ensures usage == map[]
    {
      usage := map[];
    }

    method AddBucket(h: Hash)
      modifies this
      ensures usage == Added(old(usage), {h})
    {
      usage := usage[h := Count(usage, h) + 1];
    }

    method RemoveBucket(h: Hash)
      requires NoZeros(usage)
      modifies this
      ensures usage == Removed(old(usage), {h}) && NoZeros(usage)
    {
      if h !in usage {
        return;
      }
      var left := usage[h] - 1;
      if left == 0 {
        usage := usage - {h};
      } else {
        usage := usage[h := left];
      }
    }

    /** The program passes the sorted contents of a set, so no hash twice. */
    method AddBuckets(hs: seq<Hash>)
      requires forall i, j :: 0 <= i < j < |hs| ==> hs[i] != hs[j]
      modifies this
      ensures usage == Added(old(usage), SetOf(hs))
    {
      for i := 0 to |hs|
        invariant usage == Added(old(usage), SetOf(hs[..i]))
      {
        AddBucket(hs[i]);
        SetOfMore(hs, i);
        AddedOneMore(old(usage), SetOf(hs[..i]), hs[i]);
      }
      assert hs[..|hs|] == hs;
    }

    method RemoveBuckets(hs: seq<Hash>)
      requires NoZeros(usage)
      requires forall i, j :: 0 <= i < j < |hs| ==> hs[i] != hs[j]
      modifies this
      ensures usage == Removed(old(usage), SetOf(hs)) && NoZeros(usage)
    {
      for i := 0 to |hs|
        invariant NoZeros(usage)
        invariant usage == Removed(old(usage), SetOf(hs[..i]))
      {
        RemoveBucket(hs[i]);
        SetOfMore(hs, i);
      }
      assert hs[..|hs|] == hs;
    }
  }

  // ----- The publish queue -----

  /** The queued states that name a bucket. */
  function Users(queue: map<nat, seq<SavedLevel>>, h: Hash): (s: set<nat>) {
    set l | l in queue && h in AllBuckets(queue[l])
  }

  ghost predicate CountsExact(counts: map<Hash, nat>, queue: map<nat, seq<SavedLevel>>) {
    && NoZeros(counts)
    && forall h :: Count(counts, h) == |Users(queue, h)|
  }

  lemma {:induction false} UsersAdded(queue: map<nat, seq<SavedLevel>>, l: nat, has: seq<SavedLevel>, h: Hash)
    requires l !in queue
    ensures |Users(queue[l := has], h)| == |Users(queue, h)| + (if h in AllBuckets(has) then 1 else 0)
  {
    assert Users(queue[l := has], h) == Users(queue, h) + (if h in AllBuckets(has) then {l} else {});
  }

  lemma {:induction false} UsersRemoved(queue: map<nat, seq<SavedLevel>>, l: nat, h: Hash)
    requires l in queue
    ensures |Users(queue, h)| == |Users(queue - {l}, h)| + (if h in AllBuckets(queue[l]) then 1 else 0)
  {
    assert Users(queue, h) == Users(queue - {l}, h) + (if h in AllBuckets(queue[l]) then {l} else {});
  }

  lemma {:induction false} AddedExact(counts: map<Hash, nat>, queue: map<nat, seq<SavedLevel>>, l: nat,
                                      has: seq<SavedLevel>)
    requires CountsExact(counts, queue) && l !in queue
    ensures CountsExact(Added(counts, AllBuckets(has)), queue[l := has])
  {
    var counts', queue' := Added(counts, AllBuckets(has)), queue[l := has];
    forall h
      ensures Count(counts', h) == |Users(queue', h)|
    {
      UsersAdded(queue, l, has, h);
      assert Count(counts, h) == |Users(queue, h)|;
    }
  }

  lemma {:induction false} RemovedExact(counts: map<Hash, nat>, queue: map<nat, seq<SavedLevel>>, l: nat)
    requires CountsExact(counts, queue) && l in queue
    ensures CountsExact(Removed(counts, AllBuckets(queue[l])), queue - {l})
  {
    var counts', queue' := Removed(counts, AllBuckets(queue[l])), queue - {l};
    forall h
      ensures Count(counts', h) == |Users(queue', h)|
    {
      UsersRemoved(queue, l, h);
      assert Count(counts, h) == |Users(queue, h)|;
    }
  }

  /** loadBucketsReferencedByPublishQueue. */
  method LoadCounts(queue: map<nat, seq<SavedLevel>>) returns (counts: map<Hash, nat>)
    ensures CountsExact(counts, queue)
  {
    counts := map[];
    var left := queue.Keys;
    ghost var done: map<nat, seq<SavedLevel>> := map[];
    while left != {}
      invariant left <= queue.Keys
      invariant done == map l | l in queue && l !in left :: queue[l]
      invariant CountsExact(counts, done)
    {
      var l :| l in left;
      left := left - {l};
      AddedExact(counts, done, l, queue[l]);
      done := done[l := queue[l]];
      counts := Added(counts, AllBuckets(queue[l]));
    }
    assert done == queue;
  }

  // ----- Dropping files -----

  /** getReferencedBuckets: named by the list, by the stored state of the last
      closed ledger, or by a queued state. */
  function Referenced<K, V>(hash: Bucket<K, V> -> Hash, levels: seq<Level<K, V>>, lcl: seq<SavedLevel>,
                            counts: map<Hash, nat>): (s: set<Hash>) {
    AllBuckets(SaveList(hash, {}, levels)) + AllBuckets(lcl) + counts.Keys
  }

  /** The level has the bucket, or its pending merge refers to it. */
  ghost predicate RefersTo<K, V>(hash: Bucket<K, V> -> Hash, l: Level<K, V>, h: Hash) {
    || h == hash(l.curr) || h == hash(l.snap)
    || match l.next
       case Clear => false
       case HashOutput(out) => h == out
       case HashInputs(c, s, sh) => h == c || h == s || h in sh
       case LiveOutput(b) => h == hash(b)
       case LiveInputs(c, s, sh, _) => h == hash(c) || h == hash(s) || exists j :: 0 <= j < |sh| && h == hash(sh[j])
  }

  lemma {:induction false} NamedIffReferred<K, V>(hash: Bucket<K, V> -> Hash, l: Level<K, V>, i: nat, h: Hash)
    ensures LevelNames(SaveLevel(hash, {}, i, l), h) <==> RefersTo(hash, l, h)
  {
    if l.next.LiveInputs? {
      var sh := l.next.shadows;
      assert h in HashAll(hash, sh) <==> exists j :: 0 <= j < |sh| && h == hash(sh[j]);
    }
  }

  /** Referenced is exactly what a level, the stored state or a queued state needs. */
  lemma {:induction false} ReferencedIff<K, V>(hash: Bucket<K, V> -> Hash, levels: seq<Level<K, V>>,
                                               lcl: seq<SavedLevel>, counts: map<Hash, nat>, h: Hash)
    ensures h in Referenced(hash, levels, lcl, counts) <==>
            (exists i :: 0 <= i < |levels| && RefersTo(hash, levels[i], h)) || Names(lcl, h) || h in counts
  {
    var has := SaveList(hash, {}, levels);
    AllBucketsAreNamed(has, h);
    AllBucketsAreNamed(lcl, h);
    if Names(has, h) {
      var i :| 0 <= i < |has| && LevelNames(has[i], h);
      NamedIffReferred(hash, levels[i], i, h);
    }
    if i :| 0 <= i < |levels| && RefersTo(hash, levels[i], h) {
      NamedIffReferred(hash, levels[i], i, h);
      assert LevelNames(has[i], h);
    }
  }

  method GetReferencedBuckets<K(==), V(==)>(hash: Bucket<K, V> -> Hash, levels: seq<Level<K, V>>, lcl: seq<SavedLevel>,
                                            counts: map<Hash, nat>)
    returns (referenced: set<Hash>)
    ensures referenced == Referenced(hash, levels, lcl, counts)
    ensures forall h :: h in referenced <==>
              (exists i :: 0 <= i < |levels| && RefersTo(hash, levels[i], h)) || Names(lcl, h) || h in counts
  {
    referenced := {};
    ghost var has := SaveList(hash, {}, levels);
    for i := 0 to |levels|
      invariant referenced == AllBuckets(has[..i])
    {
      referenced := referenced + {hash(levels[i].curr)};
      referenced := referenced + {hash(levels[i].snap)};
      var hs := Hashes(hash, levels[i].next);
      referenced := referenced + (set h | h in hs);
      assert SavedHashes(has[i].next) == hs;
      OneMoreLevel(has, i);
    }
    assert has[..|levels|] == has;
    referenced := referenced + AllBuckets(lcl);
    referenced := referenced + counts.Keys;
    forall h
      ensures h in referenced <==>
              (exists i :: 0 <= i < |levels| && RefersTo(hash, levels[i], h)) || Names(lcl, h) || h in counts
    {
      ReferencedIff(hash, levels, lcl, counts, h);
    }
  }

  /** forgetUnreferencedBuckets: of the buckets known in memory, those neither
      referenced nor in use elsewhere lose their files. */
  method ForgetUnreferenced<K(==), V(==)>(files: Store<K, V>, shared: set<Hash>, referenced: set<Hash>,
                                          inUse: set<Hash>, gcDisabled: bool)
    returns (files': Store<K, V>, shared': set<Hash>)
    ensures shared' == shared * (referenced + inUse)
    ensures files' == if gcDisabled then files else files - (shared - referenced - inUse)
  {
    files', shared' := files, shared;
    var left := shared;
    while left != {}
      invariant left <= shared
      invariant shared' == left + shared * (referenced + inUse)
      invariant files' == if gcDisabled then files else files - ((shared - left) - referenced - inUse)
    {
      var j :| j in left;
      left := left - {j};
      if j !in referenced && j !in inUse {
        if !gcDisabled {
          files' := files' - {j};
        }
        shared' := shared' - {j};
      }
    }
  }
}
