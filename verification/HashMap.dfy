/**
  The chained hash map of lib/glacier/container/hash_map.h, for any hash function.

  Buckets are lists of pairs, searched from the front. The map it stands for is what a search
  finds for each key.
 */
module HashMap {
  import opened Common

  datatype Pair<K, V> = Pair(key: K, value: V)

  /** The value of the first pair with the key. */
  function Find<K(==), V>(list: seq<Pair<K, V>>, key: K): Option<V> {
    if list == [] then None else if list[0].key == key then Some(list[0].value) else Find(list[1..], key)
  }

  function Has<K(==), V>(list: seq<Pair<K, V>>, key: K): bool { Find(list, key).Some? }

  predicate KeysOnce<K(==), V>(list: seq<Pair<K, V>>) {
    list == [] || (!Has(list[1..], list[0].key) && KeysOnce(list[1..]))
  }

  /** The bucket of a key. */
  function Bucket<K>(hash: K -> nat, key: K, n: nat): (b: nat)
    requires n > 0
    ensures b < n
  {
    hash(key) % n
  }

  type Buckets<K, V> = seq<seq<Pair<K, V>>>

  function Lookup<K(==), V>(hash: K -> nat, data: Buckets<K, V>, key: K): Option<V> {
    if data == [] then None else Find(data[Bucket(hash, key, |data|)], key)
  }

  // Every pair of the list belongs into bucket b of n.
  predicate Belongs<K, V>(hash: K -> nat, list: seq<Pair<K, V>>, b: nat, n: nat)
    requires n > 0
  {
    forall j :: 0 <= j < |list| ==> Bucket(hash, list[j].key, n) == b
  }

  ghost predicate BucketOk<K(!new), V>(hash: K -> nat, data: Buckets<K, V>, b: nat)
    requires b < |data|
  {
    KeysOnce(data[b]) && Belongs(hash, data[b], b, |data|)
  }

  /** Each key is stored once, in its own bucket. */
  ghost predicate Placed<K(!new), V>(hash: K -> nat, data: Buckets<K, V>) {
    forall b {:trigger BucketOk(hash, data, b)} :: 0 <= b < |data| ==> BucketOk(hash, data, b)
  }

  function Total<K, V>(data: Buckets<K, V>): nat {
    if data == [] then 0 else Total(data[..|data| - 1]) + |data[|data| - 1]|
  }

  function InMap<K(==), V>(m: map<K, V>, key: K): Option<V> { if key in m then Some(m[key]) else None }

  // ----- Lists -----

  lemma {:induction false} FindPush<K(!new), V>(list: seq<Pair<K, V>>, p: Pair<K, V>, key: K)
    ensures Find([p] + list, key) == if key == p.key then Some(p.value) else Find(list, key)
  {
    assert ([p] + list)[1..] == list;
  }

  lemma {:induction false} PushKeepsBucket<K(!new), V>(list: seq<Pair<K, V>>, p: Pair<K, V>)
    requires KeysOnce(list) && !Has(list, p.key)
    ensures KeysOnce([p] + list)
  {
    assert ([p] + list)[1..] == list;
  }

  lemma {:induction false} FoundAt<K(!new), V>(list: seq<Pair<K, V>>, j: nat)
    requires j < |list| && KeysOnce(list)
    ensures Find(list, list[j].key) == Some(list[j].value)
  {
    if j > 0 {
      FoundAt(list[1..], j - 1);
      assert list[1..][j - 1] == list[j];
    }
  }

  lemma {:induction false} FoundIs<K(!new), V>(list: seq<Pair<K, V>>, key: K) returns (j: nat)
    requires Has(list, key)
    ensures j < |list| && list[j].key == key && Find(list, key) == Some(list[j].value)
    ensures forall i :: 0 <= i < j ==> list[i].key != key
  {
    if list[0].key == key {
      j := 0;
    } else {
      var j' := FoundIs(list[1..], key);
      j := j' + 1;
      forall i | 0 <= i < j ensures list[i].key != key {
        if i > 0 { assert list[i] == list[1..][i - 1]; }
      }
    }
  }

  lemma {:induction false} SetAt<K(!new), V>(list: seq<Pair<K, V>>, j: nat, value: V)
    requires j < |list| && KeysOnce(list)
    ensures var list' := list[j := Pair(list[j].key, value)];
            KeysOnce(list') && forall k :: Find(list', k) == if k == list[j].key then Some(value) else Find(list, k)
  {
    var list' := list[j := Pair(list[j].key, value)];
    if j > 0 {
      SetAt(list[1..], j - 1, value);
      assert list'[1..] == list[1..][j - 1 := Pair(list[j].key, value)];
      assert list[1..][j - 1] == list[j];
      FoundAt(list[1..], j - 1);
    } else {
      assert list'[1..] == list[1..];
    }
  }

  lemma {:induction false} DropAt<K(!new), V>(list: seq<Pair<K, V>>, j: nat)
    requires j < |list| && KeysOnce(list)
    ensures var list' := list[..j] + list[j + 1..];
            KeysOnce(list') && forall k :: Find(list', k) == if k == list[j].key then None else Find(list, k)
  {
    var list' := list[..j] + list[j + 1..];
    if j > 0 {
      DropAt(list[1..], j - 1);
      assert list'[1..] == list[1..][..j - 1] + list[1..][j..];
      assert list[1..][j - 1] == list[j];
      FoundAt(list[1..], j - 1);
    } else {
      assert list' == list[1..];
    }
  }

  // ----- Buckets -----

  lemma {:induction false} BucketAt<K(!new), V>(hash: K -> nat, data: Buckets<K, V>, b: nat)
    requires Placed(hash, data) && b < |data|
    ensures BucketOk(hash, data, b)
  {
  }

  /** Replacing one bucket. */
  lemma {:induction false} SetBucket<K(!new), V>(hash: K -> nat, data: Buckets<K, V>, b: nat, list: seq<Pair<K, V>>)
    requires Placed(hash, data) && b < |data| && KeysOnce(list) && Belongs(hash, list, b, |data|)
    ensures Placed(hash, data[b := list])
    ensures forall k :: Lookup(hash, data[b := list], k) == if Bucket(hash, k, |data|) == b then Find(list, k)
            else Lookup(hash, data, k)
  {
    var data' := data[b := list];
    forall c | 0 <= c < |data'| ensures BucketOk(hash, data', c) {
      BucketAt(hash, data, c);
    }
  }

  lemma {:induction false} SetTotal<K, V>(data: Buckets<K, V>, b: nat, list: seq<Pair<K, V>>)
    requires b < |data|
    ensures Total(data[b := list]) + |data[b]| == Total(data) + |list|
  {
    var n := |data| - 1;
    if b < n {
      SetTotal(data[..n], b, list);
      assert data[b := list][..n] == data[..n][b := list];
    } else {
      assert data[b := list][..n] == data[..n];
    }
  }

  function Pushed<K, V>(hash: K -> nat, data: Buckets<K, V>, p: Pair<K, V>): (r: Buckets<K, V>)
    requires data != []
    ensures |r| == |data|
  {
    var b := Bucket(hash, p.key, |data|);
    data[b := [p] + data[b]]
  }

  lemma {:induction false} PushKeeps<K(!new), V>(hash: K -> nat, data: Buckets<K, V>, p: Pair<K, V>)
    requires data != [] && Placed(hash, data) && Lookup(hash, data, p.key) == None
    ensures Placed(hash, Pushed(hash, data, p)) && Total(Pushed(hash, data, p)) == Total(data) + 1
    ensures forall k :: Lookup(hash, Pushed(hash, data, p), k) == if k == p.key then Some(p.value)
            else Lookup(hash, data, k)
  {
    var b := Bucket(hash, p.key, |data|);
    BucketAt(hash, data, b);
    PushKeepsBucket(data[b], p);
    SetBucket(hash, data, b, [p] + data[b]);
    SetTotal(data, b, [p] + data[b]);
    forall k ensures Lookup(hash, Pushed(hash, data, p), k) == if k == p.key then Some(p.value)
    else Lookup(hash, data, k) {
      FindPush(data[b], p, k);
    }
  }

  // ----- Resizing -----

  /** Moves a list, front first, to the fronts of its buckets. */
  function Spilled<K, V>(hash: K -> nat, list: seq<Pair<K, V>>, data: Buckets<K, V>): (r: Buckets<K, V>)
    requires data != []
    ensures |r| == |data|
    decreases |list|
  {
    if list == [] then data else Spilled(hash, list[1..], Pushed(hash, data, list[0]))
  }

  lemma {:induction false} SpillKeeps<K(!new), V>(hash: K -> nat, list: seq<Pair<K, V>>, data: Buckets<K, V>)
    requires data != [] && Placed(hash, data) && KeysOnce(list)
    requires forall k :: Has(list, k) ==> Lookup(hash, data, k) == None
    ensures Placed(hash, Spilled(hash, list, data)) && Total(Spilled(hash, list, data)) == Total(data) + |list|
    ensures forall k :: Lookup(hash, Spilled(hash, list, data), k) == if Has(list, k) then Find(list, k)
            else Lookup(hash, data, k)
    decreases |list|
  {
    if list != [] {
      PushKeeps(hash, data, list[0]);
      SpillKeeps(hash, list[1..], Pushed(hash, data, list[0]));
    }
  }

  function SpilledAll<K, V>(hash: K -> nat, data: Buckets<K, V>, i: nat, fresh0: Buckets<K, V>): (r: Buckets<K, V>)
    requires i <= |data| && fresh0 != []
    ensures |r| == |fresh0|
  {
    if i == 0 then fresh0 else Spilled(hash, data[i - 1], SpilledAll(hash, data, i - 1, fresh0))
  }

  function Empties<K, V>(n: nat): (r: Buckets<K, V>)
    ensures |r| == n && forall b :: 0 <= b < n ==> r[b] == []
  {
    if n == 0 then [] else Empties(n - 1) + [[]]
  }

  lemma {:induction false} EmptiesEmpty<K(!new), V>(hash: K -> nat, n: nat)
    ensures Placed(hash, Empties<K, V>(n)) && Total(Empties<K, V>(n)) == 0
    ensures forall k :: Lookup(hash, Empties<K, V>(n), k) == None
  {
    if n > 0 {
      EmptiesEmpty<K, V>(hash, n - 1);
      assert Empties<K, V>(n)[..n - 1] == Empties<K, V>(n - 1);
    }
    forall b | 0 <= b < n ensures BucketOk(hash, Empties<K, V>(n), b) {
    }
  }

  lemma {:induction false} BucketKeys<K(!new), V>(hash: K -> nat, data: Buckets<K, V>, b: nat, k: K)
    requires Placed(hash, data) && b < |data| && Has(data[b], k)
    ensures Bucket(hash, k, |data|) == b
  {
    BucketAt(hash, data, b);
    var j := FoundIs(data[b], k);
  }

  // After the first i buckets, exactly their keys are there.
  lemma {:induction false} SpillAllKeeps<K(!new), V>(hash: K -> nat, data: Buckets<K, V>, i: nat, n: nat)
    requires i <= |data| && n > 0 && Placed(hash, data)
    ensures var r := SpilledAll(hash, data, i, Empties(n)); Placed(hash, r) && Total(r) == Total(data[..i])
    ensures forall k :: Lookup(hash, SpilledAll(hash, data, i, Empties(n)), k)
                        == if data != [] && Bucket(hash, k, |data|) < i then Lookup(hash, data, k) else None
  {
    EmptiesEmpty<K, V>(hash, n);
    if i > 0 {
      SpillAllKeeps(hash, data, i - 1, n);
      var before := SpilledAll(hash, data, i - 1, Empties(n));
      BucketAt(hash, data, i - 1);
      forall k | Has(data[i - 1], k) ensures Lookup(hash, before, k) == None {
        BucketKeys(hash, data, i - 1, k);
      }
      SpillKeeps(hash, data[i - 1], before);
      assert data[..i][..i - 1] == data[..i - 1];
      SpillNext(hash, data, i, n);
    }
  }

  lemma {:induction false} SpillNext<K(!new), V>(hash: K -> nat, data: Buckets<K, V>, i: nat, n: nat)
    requires 0 < i <= |data| && n > 0 && Placed(hash, data)
    requires forall k :: Lookup(hash, SpilledAll(hash, data, i - 1, Empties(n)),
                                k) == if Bucket(hash, k, |data|) < i - 1 then Lookup(hash, data, k) else None
    requires forall k :: Lookup(hash, SpilledAll(hash, data, i, Empties(n)), k)
                         == if Has(data[i - 1], k) then Find(data[i - 1], k)
                         else Lookup(hash, SpilledAll(hash, data, i - 1, Empties(n)), k)
    ensures forall k :: Lookup(hash, SpilledAll(hash, data, i, Empties(n)),
                               k) == if Bucket(hash, k, |data|) < i then Lookup(hash, data, k) else None
  {
    forall k ensures Lookup(hash, SpilledAll(hash, data, i, Empties(n)),
                            k) == if Bucket(hash, k, |data|) < i then Lookup(hash, data, k) else None {
      if Has(data[i - 1], k) { BucketKeys(hash, data, i - 1, k); }
    }
  }

  /** Resizing to any size loses and duplicates nothing. */
  lemma {:induction false} ResizeKeeps<K(!new), V>(hash: K -> nat, data: Buckets<K, V>, n: nat)
    requires n > 0 && Placed(hash, data)
    ensures var r := SpilledAll(hash, data, |data|, Empties(n)); |r| == n && Placed(hash, r) && Total(r) == Total(data)
    ensures forall k :: Lookup(hash, SpilledAll(hash, data, |data|, Empties(n)), k) == Lookup(hash, data, k)
  {
    SpillAllKeeps(hash, data, |data|, n);
    assert data[..|data|] == data;
  }

  // ----- The code -----

  /** The position of the pair with the key, if there is one. */
  method Search<K(==), V>(list: seq<Pair<K, V>>, key: K) returns (r: Option<nat>)
    ensures r == None ==> !Has(list, key)
    ensures r.Some? ==> r.value < |list| && list[r.value].key == key && Find(list, key) == Some(list[r.value].value)
  {
    var i := 0;
    assert list[0..] == list;
    while i < |list|
      invariant 0 <= i <= |list| && Find(list, key) == Find(list[i..], key)
    {
      if list[i].key == key {
        return Some(i);
      }
      assert list[i..][1..] == list[i + 1..];
      i := i + 1;
    }
    return None;
  }

  /** The load allows one more: a resize comes when the load is above 75 percent. */
  predicate LoadOk(size: nat, buckets: nat) {
    if buckets == 0 then size == 0 else buckets >= 8 && 100 * size < 76 * buckets + 100
  }

  lemma {:induction false} LoadBound(size: nat, buckets: nat)
    requires buckets > 0 && size * 100 / buckets <= 75
    ensures 100 * size < 76 * buckets
  {
    var load := size * 100 / buckets;
    assert size * 100 == load * buckets + (size * 100) % buckets;
    assert load * buckets <= 75 * buckets;
  }

  class HashMap<K(==, !new), V> {
    const hash: K -> nat
    var data: Buckets<K, V>
    var size: nat
    ghost var contents: map<K, V>

    ghost predicate Refines(m: map<K, V>)
      reads this
    {
      Placed(hash, data) && Total(data) == |m| && forall k :: Lookup(hash, data, k) == InMap(m, k)
    }

    ghost predicate Valid()
      reads this
    {
      Refines(contents) && size == |contents| && LoadOk(size, |data|)
    }

    constructor (hash: K -> nat)
      ensures Valid() && contents == map[] && this.hash == hash && data == []
    {
      this.hash := hash;
      data, size, contents := [], 0, map[];
    }

    method Resize(newSize: nat)
      requires newSize > 0 && Placed(hash, data)
      modifies this`data
      ensures |data| == newSize && Placed(hash, data) && Total(data) == old(Total(data))
      ensures forall k :: Lookup(hash, data, k) == old(Lookup(hash, data, k))
    {
      ResizeKeeps(hash, data, newSize);
      var newData: Buckets<K, V> := Empties(newSize);
      for i := 0 to |data|
        invariant newData == SpilledAll(hash, data, i, Empties(newSize))
      {
        var list := data[i];
        while |list| > 0
          invariant |newData| == newSize
                    && Spilled(hash, list, newData) == SpilledAll(hash, data, i + 1, Empties(newSize))
          decreases |list|
        {
          var pair := list[0];
          list := list[1..];
          newData := Pushed(hash, newData, pair);
        }
      }
      data := newData;
    }

    method ResizeIfNecessary()
      requires Valid()
      modifies this`data
      ensures Valid() && |data| > 0 && 100 * size < 76 * |data|
      ensures |data| == if old(|data|) == 0 then 8
                        else if size * 100 / old(|data|) > 75 then 2 * old(|data|) else old(|data|)
    {
      if |data| == 0 {
        Resize(8);
      } else if size * 100 / |data| > 75 {
        Resize(|data| * 2);
      } else {
        LoadBound(size, |data|);
      }
    }

    method Contains(key: K) returns (r: bool)
      requires Valid()
      ensures r <==> key in contents
    {
      assert Lookup(hash, data, key) == InMap(contents, key);
      if |data| == 0 {
        return false;
      }
      var at := Search(data[Bucket(hash, key, |data|)], key);
      return at.Some?;
    }

    /** Reports false, and changes nothing, if the key is there already. */
    method Insert(key: K, value: V) returns (ok: bool)
      requires Valid()
      modifies this
      ensures Valid() && |data| > 0 && (ok <==> key !in old(contents))
      ensures contents == if ok then old(contents)[key := value] else old(contents)
    {
      ResizeIfNecessary();
      assert Lookup(hash, data, key) == InMap(contents, key);
      var b := Bucket(hash, key, |data|);
      var at := Search(data[b], key);
      if at.Some? {
        return false;
      }
      PushKeeps(hash, data, Pair(key, value));
      data := data[b := [Pair(key, value)] + data[b]];
      size := size + 1;
      contents := contents[key := value];
      return true;
    }

    method Update(key: K, value: V) returns (ok: bool)
      requires Valid()
      modifies this
      ensures Valid() && (ok <==> key in old(contents))
      ensures contents == if ok then old(contents)[key := value] else old(contents)
    {
      ResizeIfNecessary();
      assert Lookup(hash, data, key) == InMap(contents, key);
      var b := Bucket(hash, key, |data|);
      var at := Search(data[b], key);
      if at == None {
        return false;
      }
      UpdateKeeps(hash, data, b, at.value, value);
      data := data[b := data[b][at.value := Pair(key, value)]];
      contents := contents[key := value];
      return true;
    }

    /** Needs an earlier insert: with no buckets there is nothing to divide by. */
    method Delete(key: K) returns (ok: bool)
      requires Valid() && |data| > 0
      modifies this
      ensures Valid() && |data| == |old(data)| && (ok <==> key in old(contents)) && contents == old(contents) - {key}
    {
      assert Lookup(hash, data, key) == InMap(contents, key);
      var b := Bucket(hash, key, |data|);
      var at := Search(data[b], key);
      if at == None {
        return false;
      }
      DeleteKeeps(hash, data, b, at.value);
      data := data[b := data[b][..at.value] + data[b][at.value + 1..]];
      size := size - 1;
      contents := contents - {key};
      return true;
    }

    /** Looking up a missing key stores a default for it; the size then no longer matches. */
    method At(key: K, fallback: V) returns (v: V)
      requires Valid() && |data| > 0
      modifies this
      ensures contents == old(contents)[key := v] && (key in old(contents) ==> v == old(contents)[key])
      ensures key !in old(contents) ==> v == fallback
      ensures Refines(contents) && size == old(size) && |data| == |old(data)|
      ensures size == |contents| <==> key in old(contents)
    {
      assert Lookup(hash, data, key) == InMap(contents, key);
      var b := Bucket(hash, key, |data|);
      var at := Search(data[b], key);
      if at.Some? {
        v := data[b][at.value].value;
        assert contents[key := v] == contents;
        return;
      }
      PushKeeps(hash, data, Pair(key, fallback));
      data := data[b := [Pair(key, fallback)] + data[b]];
      contents := contents[key := fallback];
      v := fallback;
    }
  }

  lemma {:induction false} UpdateKeeps<K(!new), V>(hash: K -> nat, data: Buckets<K, V>, b: nat, j: nat, value: V)
    requires Placed(hash, data) && b < |data| && j < |data[b]|
    ensures var key := data[b][j].key;
            var data' := data[b := data[b][j := Pair(key, value)]];
            && Placed(hash, data') && Total(data') == Total(data)
            && forall k :: Lookup(hash, data', k) == if k == key then Some(value) else Lookup(hash, data, k)
  {
    var list := data[b][j := Pair(data[b][j].key, value)];
    BucketAt(hash, data, b);
    SetAt(data[b], j, value);
    SetBucket(hash, data, b, list);
    SetTotal(data, b, list);
  }

  lemma {:induction false} DeleteKeeps<K(!new), V>(hash: K -> nat, data: Buckets<K, V>, b: nat, j: nat)
    requires Placed(hash, data) && b < |data| && j < |data[b]|
    ensures var key := data[b][j].key;
            var data' := data[b := data[b][..j] + data[b][j + 1..]];
            && Placed(hash, data') && Total(data') == Total(data) - 1
            && forall k :: Lookup(hash, data', k) == if k == key then None else Lookup(hash, data, k)
  {
    var list := data[b][..j] + data[b][j + 1..];
    BucketAt(hash, data, b);
    DropAt(data[b], j);
    forall i | 0 <= i < |list| ensures Bucket(hash, list[i].key, |data|) == b {
      assert list[i] == data[b][if i < j then i else i + 1];
    }
    SetBucket(hash, data, b, list);
    SetTotal(data, b, list);
  }
}
