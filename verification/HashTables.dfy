/** The chained hash table: it behaves as one list of associations in the order in which they were added. */
module HashTables {
  import opened Wrappers

  type Key = seq<bv8>

  datatype Entry<T> = Entry(key: Key, item: T)

  /** ___hashtable_hash before the reduction: 32-bit arithmetic that wraps around. */
  function Mixed(key: Key): bv32 {
    if key == [] then 1
    else
      var h := Mixed(key[..|key| - 1]);
      (h << 5) ^ (key[|key| - 1] as bv32) ^ h
  }

  function Bucket(key: Key, size: nat): (b: nat)
    requires 0 < size < 0x8000_0000
    ensures b < size
  {
    ((Mixed(key) as int + size) % 0x1_0000_0000) % size
  }

  lemma {:induction false} MixedStart()
    ensures Mixed([]) == 1
  {
  }

  lemma {:induction false} MixedStep(key: Key, i: nat)
    requires i < |key|
    ensures Mixed(key[..i + 1]) == (Mixed(key[..i]) << 5) ^ (key[i] as bv32) ^ Mixed(key[..i])
  {
    assert key[..i + 1][..i] == key[..i];
  }

  /** The associations of one bucket, in their order. */
  function Chain<T>(all: seq<Entry<T>>, size: nat, b: nat): (r: seq<Entry<T>>)
    requires 0 < size < 0x8000_0000
  {
    if all == [] then []
    else
      var e := all[|all| - 1];
      Chain(all[..|all| - 1], size, b) + if Bucket(e.key, size) == b then [e] else []
  }

  function Items<T>(entries: seq<Entry<T>>): (r: seq<T>)
    ensures |r| == |entries| && forall k {:trigger r[k]} :: 0 <= k < |r| ==> r[k] == entries[k].item
  {
    seq(|entries|, k requires 0 <= k < |entries| => entries[k].item)
  }

  /** Position of the earliest association of the key, or the length. */
  function Earliest<T>(all: seq<Entry<T>>, key: Key): (k: nat)
    ensures k <= |all| && (forall i :: 0 <= i < k ==> all[i].key != key) && (k < |all| ==> all[k].key == key)
  {
    if all == [] then 0 else if all[0].key == key then 0 else 1 + Earliest(all[1..], key)
  }

  function Lookup<T>(all: seq<Entry<T>>, key: Key): Option<T> {
    var k := Earliest(all, key);
    if k < |all| then Some(all[k].item) else None
  }

  /** Without the earliest association of the key. */
  function Dropped<T>(all: seq<Entry<T>>, key: Key): seq<Entry<T>> {
    var k := Earliest(all, key);
    if k < |all| then all[..k] + all[k + 1..] else all
  }

  // ----- a bucket knows all there is to know about its keys -----

  lemma {:induction false} ChainAppend<T>(x: seq<Entry<T>>, y: seq<Entry<T>>, size: nat, b: nat)
    requires 0 < size < 0x8000_0000
    ensures Chain(x + y, size, b) == Chain(x, size, b) + Chain(y, size, b)
  {
    if y == [] {
      assert x + y == x;
    } else {
      var l := |y| - 1;
      ChainAppend(x, y[..l], size, b);
      assert (x + y)[..|x + y| - 1] == x + y[..l] && (x + y)[|x + y| - 1] == y[l];
    }
  }

  lemma {:induction false} ChainOne<T>(e: Entry<T>, size: nat, b: nat)
    requires 0 < size < 0x8000_0000
    ensures Chain([e], size, b) == if Bucket(e.key, size) == b then [e] else []
  {
    assert [e][..0] == [] && [e][0] == e;
  }

  /** Where no association has the key, its chain has none either. */
  lemma {:induction false} ChainLacks<T>(all: seq<Entry<T>>, size: nat, b: nat, key: Key)
    requires 0 < size < 0x8000_0000 && forall i :: 0 <= i < |all| ==> all[i].key != key
    ensures forall i :: 0 <= i < |Chain(all, size, b)| ==> Chain(all, size, b)[i].key != key
  {
    if all != [] { ChainLacks(all[..|all| - 1], size, b, key); }
  }

  lemma {:induction false} EarliestIs<T>(all: seq<Entry<T>>, key: Key, k: nat)
    requires k <= |all| && (forall i :: 0 <= i < k ==> all[i].key != key) && (k < |all| ==> all[k].key == key)
    ensures Earliest(all, key) == k
  {
  }

  /** The earliest association of a key is the earliest one in its bucket, and dropping it there drops it. */
  lemma {:induction false} ChainKnows<T>(all: seq<Entry<T>>, size: nat, key: Key)
    requires 0 < size < 0x8000_0000
    ensures Lookup(Chain(all, size, Bucket(key, size)), key) == Lookup(all, key)
    ensures Chain(Dropped(all, key), size, Bucket(key, size)) == Dropped(Chain(all, size, Bucket(key, size)), key)
    ensures Earliest(Chain(all, size, Bucket(key, size)), key) < |Chain(all, size, Bucket(key, size))|
      <==> Earliest(all, key) < |all|
  {
    hide Bucket, Chain, Earliest;
    var b, k := Bucket(key, size), Earliest(all, key);
    ChainLacks(all[..k], size, b, key);
    if k < |all| {
      SplitAt(all, size, b, k);
      ChainOne(all[k], size, b);
      ChainAppend(all[..k], all[k + 1..], size, b);
      assert Chain(all, size, b)[|Chain(all[..k], size, b)|] == all[k];
      EarliestIs(Chain(all, size, b), key, |Chain(all[..k], size, b)|);
    } else {
      assert all[..k] == all;
      EarliestIs(Chain(all, size, b), key, |Chain(all, size, b)|);
    }
  }

  lemma {:induction false} SplitAt<T>(all: seq<Entry<T>>, size: nat, b: nat, k: nat)
    requires 0 < size < 0x8000_0000 && k < |all|
    ensures Chain(all, size, b) == Chain(all[..k], size, b) + Chain([all[k]], size, b) + Chain(all[k + 1..], size, b)
  {
    assert all == all[..k] + ([all[k]] + all[k + 1..]);
    ChainAppend(all[..k], [all[k]] + all[k + 1..], size, b);
    ChainAppend([all[k]], all[k + 1..], size, b);
  }

  /** Another bucket does not notice. */
  lemma {:induction false} OtherChain<T>(all: seq<Entry<T>>, size: nat, key: Key, b: nat)
    requires 0 < size < 0x8000_0000 && b != Bucket(key, size)
    ensures Chain(Dropped(all, key), size, b) == Chain(all, size, b)
  {
    var k := Earliest(all, key);
    if k < |all| {
      SplitAt(all, size, b, k);
      ChainOne(all[k], size, b);
      ChainAppend(all[..k], all[k + 1..], size, b);
    }
  }

  // ----- every association is in exactly one bucket -----

  function Buckets<T>(all: seq<Entry<T>>, size: nat, n: nat): seq<Entry<T>>
    requires 0 < size < 0x8000_0000
  {
    if n == 0 then [] else Buckets(all, size, n - 1) + Chain(all, size, n - 1)
  }

  lemma {:induction false} OneMore<T>(x: seq<T>, x': seq<T>, y: seq<T>, y': seq<T>, e: T, inX: bool, inY: bool)
    requires multiset(x') == multiset(x) + (if inX then multiset{e} else multiset{}) && !(inX && inY)
    requires y' == y + if inY then [e] else []
    ensures multiset(x' + y') == multiset(x + y) + if inX || inY then multiset{e} else multiset{}
  {
    assert multiset(x' + y') == multiset(x') + multiset(y') && multiset(x + y) == multiset(x) + multiset(y);
  }

  lemma {:induction false} BucketsStep<T>(all: seq<Entry<T>>, e: Entry<T>, size: nat, n: nat)
    requires 0 < size < 0x8000_0000
    ensures multiset(Buckets(all + [e], size, n))
         == multiset(Buckets(all, size, n)) + if Bucket(e.key, size) < n then multiset{e} else multiset{}
  {
    hide Bucket, Chain;
    if n > 0 {
      BucketsStep(all, e, size, n - 1);
      ChainAppend(all, [e], size, n - 1);
      ChainOne(e, size, n - 1);
      var b := Bucket(e.key, size);
      OneMore(Buckets(all, size, n - 1), Buckets(all + [e], size, n - 1), Chain(all, size, n - 1),
              Chain(all + [e], size, n - 1), e, b < n - 1, b == n - 1);
    }
  }

  /** Read bucket by bucket, the chains hold every association exactly once. */
  lemma {:induction false} BucketsHoldAll<T>(all: seq<Entry<T>>, size: nat)
    requires 0 < size < 0x8000_0000
    ensures multiset(Buckets(all, size, size)) == multiset(all)
  {
    if all == [] {
      NoBuckets<T>(size, size);
    } else {
      var l := |all| - 1;
      assert all == all[..l] + [all[l]];
      BucketsHoldAll(all[..l], size);
      BucketsStep(all[..l], all[l], size, size);
    }
  }

  lemma {:induction false} NoBuckets<T>(size: nat, n: nat)
    requires 0 < size < 0x8000_0000
    ensures Buckets<T>([], size, n) == []
  {
    if n > 0 { NoBuckets<T>(size, n - 1); }
  }

  class Table<T(0)> {
    var store: array<seq<Entry<T>>>
    var count: nat
    ghost var all: seq<Entry<T>>

    ghost predicate Valid()
      reads this, store
    {
      && 0 < store.Length < 0x8000_0000 && count == |all|
      && forall b {:trigger store[b]} :: 0 <= b < store.Length ==> store[b] == Chain(all, store.Length, b)
    }

    /** create_hashtable */
    constructor (size: nat)
      requires 0 < size < 0x8000_0000
      ensures Valid() && fresh(store) && all == [] && store.Length == size
    {
      store := new seq<Entry<T>>[size](_ => []);
      count, all := 0, [];
    }

    /** ___hashtable_hash: the index of the bucket. */
    method Hash(key: Key) returns (b: nat)
      requires Valid()
      ensures b == Bucket(key, store.Length)
    {
      hide Mixed;
      MixedStart();
      var h: bv32 := 1;
      for i := 0 to |key|
        invariant h == Mixed(key[..i])
      {
        MixedStep(key, i);
        h := (h << 5) ^ (key[i] as bv32) ^ h;
      }
      assert key[..|key|] == key;
      b := ((h as int + store.Length) % 0x1_0000_0000) % store.Length;
    }

    /** The walk down a chain. */
    method Find(chain: seq<Entry<T>>, key: Key) returns (k: nat)
      ensures k == Earliest(chain, key)
    {
      k := 0;
      while k < |chain| && chain[k].key != key
        invariant k <= |chain| && forall i :: 0 <= i < k ==> chain[i].key != key
      {
        k := k + 1;
      }
      EarliestIs(chain, key, k);
    }

    /** ___hashtable_add: to the end of the chain. */
    method Add(key: Key, item: T)
      requires Valid()
      modifies this`count, this`all, store
      ensures Valid() && all == old(all) + [Entry(key, item)]
    {
      var b := Hash(key);
      store[b] := store[b] + [Entry(key, item)];
      count := count + 1;
      forall c {:trigger Chain(all, store.Length, c)} | 0 <= c < store.Length
        ensures Chain(all + [Entry(key, item)], store.Length, c)
             == Chain(all, store.Length, c) + if c == b then [Entry(key, item)] else []
      {
        ChainAppend(all, [Entry(key, item)], store.Length, c);
        ChainOne(Entry(key, item), store.Length, c);
      }
      all := all + [Entry(key, item)];
    }

    /** ___hashtable_get: the item that was added first of those still there. */
    method Get(key: Key) returns (item: Option<T>)
      requires Valid()
      ensures item == Lookup(all, key)
    {
      var b := Hash(key);
      ChainKnows(all, store.Length, key);
      var k := Find(store[b], key);
      item := if k < |store[b]| then Some(store[b][k].item) else None;
    }

    /** ___hashtable_remove: that association goes. */
    method Remove(key: Key) returns (item: Option<T>)
      requires Valid()
      modifies this`count, this`all, store
      ensures Valid() && item == Lookup(old(all), key) && all == Dropped(old(all), key)
    {
      hide Chain, Bucket, Earliest;
      var b := Hash(key);
      ChainKnows(all, store.Length, key);
      var chain := store[b];
      var k := Find(chain, key);
      item := None;
      if k < |chain| {
        item := Some(chain[k].item);
        store[b] := chain[..k] + chain[k + 1..];
        count := count - 1;
      }
      forall c {:trigger Chain(all, store.Length, c)} | 0 <= c < store.Length && c != b
        ensures Chain(Dropped(all, key), store.Length, c) == Chain(all, store.Length, c)
      {
        OtherChain(all, store.Length, key, c);
      }
      all := Dropped(all, key);
    }

    /** ___hashtable_get_all: the item of every association, each association exactly once. */
    method GetAll() returns (items: seq<T>, ghost entries: seq<Entry<T>>)
      requires Valid()
      ensures multiset(entries) == multiset(all) && items == Items(entries) && |items| == count
    {
      items, entries := [], [];
      for b := 0 to store.Length
        invariant entries == Buckets(all, store.Length, b) && items == Items(entries)
      {
        var chain := store[b];
        ghost var before := entries;
        for j := 0 to |chain|
          invariant entries == before + chain[..j] && items == Items(entries)
        {
          items := items + [chain[j].item];
          entries := entries + [chain[j]];
        }
        assert chain[..|chain|] == chain;
      }
      BucketsHoldAll(all, store.Length);
      assert |entries| == |multiset(entries)|;
    }
  }
}
