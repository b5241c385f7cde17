/** A pending merge and its persistence (src/bucket/FutureBucket.h and .cpp).
    Buckets are saved by hash; the hash function is a parameter and nothing is
    assumed of it. Hash 0 is the empty bucket's. */
module FutureBucket {
  import opened BucketFile
  import opened BucketList

  /** The serialized form: inputs or output by hash, or nothing. A saved state
      that names a live state is rejected by load. */
  datatype Saved =
    | SavedClear
    | SavedInputs(curr: Hash, snap: Hash, shadows: seq<Hash>)
    | SavedOutput(output: Hash)
    | SavedUnexpected

  type Store<!K, V> = map<Hash, Bucket<K, V>>

  function HashAll<K, V>(hash: Bucket<K, V> -> Hash, bs: seq<Bucket<K, V>>): (hs: seq<Hash>)
    ensures |hs| == |bs| && forall i :: 0 <= i < |bs| ==> hs[i] == hash(bs[i])
  {
    seq(|bs|, i requires 0 <= i < |bs| => hash(bs[i]))
  }

  /** getBucketByHash: the zero hash needs no file. */
  function BucketByHash<K, V>(store: Store<K, V>, h: Hash): (b: Option<Bucket<K, V>>) {
    if h == 0 then Some(map[]) else if h in store then Some(store[h]) else None
  }

  function BucketsByHash<K, V>(store: Store<K, V>, hs: seq<Hash>): (bs: Option<seq<Bucket<K, V>>>)
    ensures bs.Some? ==> |bs.value| == |hs| && forall i :: 0 <= i < |hs| ==>
            BucketByHash(store, hs[i]) == Some(bs.value[i])
    ensures bs.None? ==> exists i :: 0 <= i < |hs| && BucketByHash(store, hs[i]).None?
  {
    if hs == [] then Some([])
    else
      var rest := BucketsByHash(store, hs[..|hs| - 1]);
      var last := BucketByHash(store, hs[|hs| - 1]);
      if rest.Some? && last.Some? then Some(rest.value + [last.value]) else None
  }

  function Save<K, V>(hash: Bucket<K, V> -> Hash, f: Future<K, V>): (s: Saved) {
    match f
    case Clear => SavedClear
    case HashOutput(h) => SavedOutput(h)
    case HashInputs(c, s, sh) => SavedInputs(c, s, sh)
    case LiveOutput(b) => SavedOutput(hash(b))
    case LiveInputs(c, s, sh, _) => SavedInputs(hash(c), hash(s), HashAll(hash, sh))
  }

  function Load<K, V>(s: Saved): (f: Option<Future<K, V>>) {
    match s
    case SavedClear => Some(Clear)
    case SavedInputs(c, sn, sh) => Some(HashInputs(c, sn, sh))
    case SavedOutput(h) => Some(HashOutput(h))
    case SavedUnexpected => None
  }

  /** From hashes to buckets; fails when a file is missing. */
  function MakeLive<K, V>(store: Store<K, V>, f: Future<K, V>, keepDead: bool): (r: Option<Future<K, V>>)
    requires f.HashInputs? || f.HashOutput?
  {
    if f.HashOutput? then
      var b := BucketByHash(store, f.outputHash);
      if b.Some? then Some(LiveOutput(b.value)) else None
    else
      var c, s, sh := BucketByHash(store, f.currHash), BucketByHash(store, f.snapHash),
        BucketsByHash(store, f.shadowHashes);
      if c.Some? && s.Some? && sh.Some? then Some(LiveInputs(c.value, s.value, sh.value, keepDead)) else None
  }

  /** getHashes: everything a future refers to. */
  function Hashes<K, V>(hash: Bucket<K, V> -> Hash, f: Future<K, V>): (hs: seq<Hash>) {
    match f
    case Clear => []
    case HashOutput(h) => [h]
    case HashInputs(c, s, sh) => [c, s] + sh
    case LiveOutput(b) => [hash(b)]
    case LiveInputs(c, s, sh, _) => [hash(c), hash(s)] + HashAll(hash, sh)
  }

  /** The store holds this very bucket under its hash. */
  predicate HasFile<K(==), V(==)>(store: Store<K, V>, hash: Bucket<K, V> -> Hash, b: Bucket<K, V>) {
    BucketByHash(store, hash(b)) == Some(b)
  }

  ghost predicate HasFiles<K, V>(store: Store<K, V>, hash: Bucket<K, V> -> Hash, f: Future<K, V>) {
    match f
    case LiveOutput(b) => HasFile(store, hash, b)
    case LiveInputs(c, s, sh, _) =>
      HasFile(store, hash, c) && HasFile(store, hash, s) && forall i :: 0 <= i < |sh| ==> HasFile(store, hash, sh[i])
    case _ => true
  }

  /** Saving a live future and making it live again loses nothing but the
      progress of the merge. */
  lemma {:induction false} SaveLoadRoundTrip<K, V>(store: Store<K, V>, hash: Bucket<K, V> -> Hash, f: Future<K, V>,
                                                   keepDead: bool)
    requires f.IsLive() && HasFiles(store, hash, f)
    requires f.LiveInputs? ==> f.keepDead == keepDead
    ensures var loaded := Load<K, V>(Save(hash, f));
            && loaded.Some? && (loaded.value.HashInputs? || loaded.value.HashOutput?)
            && MakeLive(store, loaded.value, keepDead) == Some(f)
  {
    if f.LiveInputs? {
      var hs := HashAll(hash, f.shadows);
      var bs := BucketsByHash(store, hs);
      forall i | 0 <= i < |hs|
        ensures BucketByHash(store, hs[i]) == Some(f.shadows[i])
      {
        assert HasFile(store, hash, f.shadows[i]);
      }
      assert bs.value == f.shadows;
    }
  }

  // ----- The object, with its redundant fields -----

  datatype State = FB_CLEAR | FB_HASH_OUTPUT | FB_HASH_INPUTS | FB_LIVE_OUTPUT | FB_LIVE_INPUTS

  class Object<K(==), V(==)> {
    const hash: Bucket<K, V> -> Hash
    var state: State
    var inputCurr: Option<Bucket<K, V>>
    var inputSnap: Option<Bucket<K, V>>
    var inputShadows: seq<Bucket<K, V>>
    var inputCurrHash: Option<Hash>
    var inputSnapHash: Option<Hash>
    var inputShadowHashes: seq<Hash>
    /** The merge task or the finished bucket; `None` when there is no future. */
    var outputBucket: Option<Bucket<K, V>>
    var outputHash: Option<Hash>
    /** What the running task captured. */
    var taskKeepsDead: bool

    /** checkState: the combinations of fields that each state allows. */
    ghost predicate Valid()
      reads this
    {
      match state
      case FB_CLEAR =>
        && inputCurr.None? && inputSnap.None? && inputShadows == [] && outputBucket.None?
        && inputCurrHash.None? && inputSnapHash.None? && inputShadowHashes == [] && outputHash.None?
      case FB_LIVE_INPUTS =>
        && inputCurr.Some? && inputSnap.Some? && outputBucket.Some? && outputHash.None?
        && inputCurrHash == Some(hash(inputCurr.value)) && inputSnapHash == Some(hash(inputSnap.value))
        && inputShadowHashes == HashAll(hash, inputShadows)
        && outputBucket.value == Merged(inputCurr.value, inputSnap.value, inputShadows, taskKeepsDead)
      case FB_LIVE_OUTPUT =>
        && outputBucket.Some? && outputHash == Some(hash(outputBucket.value))
        && inputCurr.None? && inputSnap.None? && inputShadows == []
        && inputCurrHash.None? && inputSnapHash.None? && inputShadowHashes == []
      case FB_HASH_INPUTS =>
        && inputCurr.None? && inputSnap.None? && inputShadows == [] && outputBucket.None?
        && inputCurrHash.Some? && inputSnapHash.Some? && outputHash.None?
      case FB_HASH_OUTPUT =>
        && inputCurr.None? && inputSnap.None? && inputShadows == [] && outputBucket.None?
        && inputCurrHash.None? && inputSnapHash.None? && inputShadowHashes == [] && outputHash.Some?
    }

    ghost function Value(): (f: Future<K, V>)
      reads this
      requires Valid()
    {
      match state
      case FB_CLEAR => Clear
      case FB_LIVE_INPUTS => LiveInputs(inputCurr.value, inputSnap.value, inputShadows, taskKeepsDead)
      case FB_LIVE_OUTPUT => LiveOutput(outputBucket.value)
      case FB_HASH_INPUTS => HashInputs(inputCurrHash.value, inputSnapHash.value, inputShadowHashes)
      case FB_HASH_OUTPUT => HashOutput(outputHash.value)
    }

    constructor (hash: Bucket<K, V> -> Hash)
      ensures Valid() && Value() == Clear && this.hash == hash
    {
      this.hash := hash;
      state := FB_CLEAR;
      inputCurr, inputSnap, inputShadows, outputBucket := None, None, [], None;
      inputCurrHash, inputSnapHash, inputShadowHashes, outputHash := None, None, [], None;
      taskKeepsDead := true;
    }

    constructor Merging(hash: Bucket<K, V> -> Hash, curr: Bucket<K, V>, snap: Bucket<K, V>, shadows: seq<Bucket<K, V>>,
                        keepDead: bool)
      ensures Valid() && Value() == LiveInputs(curr, snap, shadows, keepDead) && this.hash == hash
    {
      this.hash := hash;
      state := FB_LIVE_INPUTS;
      inputCurr, inputSnap, inputShadows := Some(curr), Some(snap), shadows;
      inputCurrHash, inputSnapHash, inputShadowHashes := Some(hash(curr)), Some(hash(snap)), HashAll(hash, shadows);
      outputBucket, outputHash := None, None;
      taskKeepsDead := keepDead;
      new;
      StartMerge(keepDead);
    }

    method ClearInputs()
      modifies this
      ensures inputCurr.None? && inputSnap.None? && inputShadows == []
      ensures inputCurrHash.None? && inputSnapHash.None? && inputShadowHashes == []
      ensures state == old(state) && outputBucket == old(outputBucket) && outputHash == old(outputHash)
    {
      inputCurr, inputSnap, inputShadows := None, None, [];
      inputCurrHash, inputSnapHash, inputShadowHashes := None, None, [];
    }

    method ClearAll()
      modifies this
      ensures Valid() && Value() == Clear
    {
      state := FB_CLEAR;
      ClearInputs();
      outputBucket, outputHash := None, None;
    }

    method StartMerge(keepDead: bool)
      requires state == FB_LIVE_INPUTS && inputCurr.Some? && inputSnap.Some? && outputBucket.None? && outputHash.None?
      requires inputCurrHash == Some(hash(inputCurr.value)) && inputSnapHash == Some(hash(inputSnap.value))
      requires inputShadowHashes == HashAll(hash, inputShadows)
      modifies this
      ensures Valid()
      ensures Value() == LiveInputs(old(inputCurr.value), old(inputSnap.value), old(inputShadows), keepDead)
    {
      taskKeepsDead := keepDead;
      outputBucket := Some(Merged(inputCurr.value, inputSnap.value, inputShadows, keepDead));
    }

    method SetLiveOutput(b: Bucket<K, V>)
      requires Valid() && state == FB_HASH_OUTPUT
      modifies this
      ensures Valid() && Value() == LiveOutput(b)
    {
      state := FB_LIVE_OUTPUT;
      outputHash := Some(hash(b));
      outputBucket := Some(b);
    }

    /** Waits for the merge; the inputs are given up. */
    method Resolve() returns (b: Bucket<K, V>)
      requires Valid() && Value().IsLive()
      modifies this
      ensures Valid()
      ensures b == old(Value()).Outcome()
      ensures Value() == LiveOutput(b)
    {
      ClearInputs();
      b := outputBucket.value;
      if outputHash.None? {
        outputHash := Some(hash(b));
      } else {
        assert hash(b) == outputHash.value;
      }
      state := FB_LIVE_OUTPUT;
    }

    method LookupShadows(store: Store<K, V>) returns (ok: bool, bs: seq<Bucket<K, V>>)
      ensures ok == BucketsByHash(store, inputShadowHashes).Some?
      ensures ok ==> BucketsByHash(store, inputShadowHashes) == Some(bs)
    {
      bs := [];
      for i := 0 to |inputShadowHashes|
        invariant BucketsByHash(store, inputShadowHashes[..i]) == Some(bs)
      {
        var b := BucketByHash(store, inputShadowHashes[i]);
        assert inputShadowHashes[..i + 1][..i] == inputShadowHashes[..i];
        if b.None? {
          return false, bs;
        }
        bs := bs + [b.value];
      }
      assert inputShadowHashes[..|inputShadowHashes|] == inputShadowHashes;
      return true, bs;
    }

    method Activate(store: Store<K, V>, keepDead: bool) returns (ok: bool)
      requires Valid() && (state == FB_HASH_INPUTS || state == FB_HASH_OUTPUT)
      requires state == FB_HASH_INPUTS ==> FaithfulInputs(store)
      modifies this
      ensures ok == MakeLive(store, old(Value()), keepDead).Some?
      ensures ok ==> Valid() && MakeLive(store, old(Value()), keepDead) == Some(Value())
      ensures !ok ==> Valid() && Value() == old(Value())
    {
      if state == FB_HASH_OUTPUT {
        var b := BucketByHash(store, outputHash.value);
        if b.None? {
          return false;
        }
        SetLiveOutput(b.value);
        return true;
      }
      var c := BucketByHash(store, inputCurrHash.value);
      var s := BucketByHash(store, inputSnapHash.value);
      var found, shadows := LookupShadows(store);
      if c.None? || s.None? || !found {
        return false;
      }
      inputCurr, inputSnap, inputShadows := c, s, shadows;
      state := FB_LIVE_INPUTS;
      assert inputShadowHashes == HashAll(hash, inputShadows);
      StartMerge(keepDead);
      return true;
    }

    /** The files found under the recorded hashes do hash to them. */
    ghost predicate FaithfulInputs(store: Store<K, V>)
      reads this
    {
      && (inputCurrHash.Some? ==> Faithful(store, inputCurrHash.value))
      && (inputSnapHash.Some? ==> Faithful(store, inputSnapHash.value))
      && forall i :: 0 <= i < |inputShadowHashes| ==> Faithful(store, inputShadowHashes[i])
    }

    ghost predicate Faithful(store: Store<K, V>, h: Hash) {
      BucketByHash(store, h).Some? ==> hash(BucketByHash(store, h).value) == h
    }

    method SaveTo() returns (s: Saved)
      requires Valid()
      ensures s == Save(hash, Value())
    {
      match state
      case FB_LIVE_INPUTS | FB_HASH_INPUTS => return SavedInputs(inputCurrHash.value, inputSnapHash.value,
        inputShadowHashes);
      case FB_LIVE_OUTPUT | FB_HASH_OUTPUT => return SavedOutput(outputHash.value);
      case FB_CLEAR => return SavedClear;
    }

    method LoadFrom(s: Saved) returns (ok: bool)
      modifies this
      ensures ok == Load<K, V>(s).Some?
      ensures ok ==> Valid() && Load(s) == Some(Value())
    {
      ClearAll();
      match s {
        case SavedInputs(c, sn, sh) =>
          state := FB_HASH_INPUTS;
          inputCurrHash, inputSnapHash, inputShadowHashes := Some(c), Some(sn), sh;
        case SavedOutput(h) =>
          state := FB_HASH_OUTPUT;
          outputHash := Some(h);
        case SavedClear =>
        case SavedUnexpected =>
          return false;
      }
      return true;
    }

    method GetHashes() returns (hs: seq<Hash>)
      requires Valid()
      ensures hs == Hashes(hash, Value())
    {
      hs := [];
      if inputCurrHash.Some? {
        hs := hs + [inputCurrHash.value];
      }
      if inputSnapHash.Some? {
        hs := hs + [inputSnapHash.value];
      }
      for i := 0 to |inputShadowHashes|
        invariant hs == (if inputCurrHash.Some? then [inputCurrHash.value] else []) +
                  (if inputSnapHash.Some? then [inputSnapHash.value] else []) + inputShadowHashes[..i]
      {
        hs := hs + [inputShadowHashes[i]];
      }
      if outputHash.Some? {
        hs := hs + [outputHash.value];
      }
    }
  }
}
