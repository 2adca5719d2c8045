/**
 The data of `SafeMap`: buckets of key-value pairs, and the plain map they
 stand for.
 */
module HashTable {
  import opened Values

  type Bucket = seq<(Key, Value)>

  /** `findEntryFor`: the position of the first pair with this key, or the end. */
  function Find(b: Bucket, key: Key): (i: nat)
    ensures i <= |b|
    ensures i < |b| ==> b[i].0 == key
    ensures forall j :: 0 <= j < i ==> b[j].0 != key
  {
    if b == [] || b[0].0 == key then 0 else 1 + Find(b[1..], key)
  }

  function ValueIn(b: Bucket, key: Key, default: Value): Value {
    if Find(b, key) == |b| then default else b[Find(b, key)].1
  }

  function Put(b: Bucket, key: Key, value: Value): Bucket {
    var i := Find(b, key);
    if i == |b| then b + [(key, value)] else b[i := (key, value)]
  }

  function Delete(b: Bucket, key: Key): Bucket {
    var i := Find(b, key);
    if i == |b| then b else b[..i] + b[i + 1..]
  }

  /** `std::map::insert` of every pair in turn, which never overwrites. */
  function InsertAll(m: map<Key, Value>, b: Bucket): map<Key, Value>
    decreases b
  {
    if b == [] then m
    else InsertAll(if b[0].0 in m then m else m[b[0].0 := b[0].1], b[1..])
  }

  /** What `getMap` builds from the buckets in order. */
  function Collect(bs: seq<Bucket>): map<Key, Value> {
    if bs == [] then map[] else InsertAll(Collect(bs[..|bs| - 1]), bs[|bs| - 1])
  }

  // ------------------------------------------------------------ one bucket

  /** No key twice. */
  ghost predicate Distinct(b: Bucket) {
    forall i, j :: 0 <= i < j < |b| ==> b[i].0 != b[j].0
  }

  ghost predicate HasKey(b: Bucket, key: Key) {
    Find(b, key) < |b|
  }

  lemma FindsTheOnly(b: Bucket, key: Key, i: nat)
    requires Distinct(b) && i < |b| && b[i].0 == key
    ensures Find(b, key) == i
  {
  }

  lemma PutInBucket(b: Bucket, key: Key, value: Value, q: Key, d: Value)
    requires Distinct(b)
    ensures Distinct(Put(b, key, value))
    ensures HasKey(Put(b, key, value), q) <==> HasKey(b, q) || q == key
    ensures ValueIn(Put(b, key, value), q, d) == if q == key then value else ValueIn(b, q, d)
  {
    var b' := Put(b, key, value);
    if q == key {
      FindsTheOnly(b', q, Find(b, key));
    } else if HasKey(b, q) {
      FindsTheOnly(b', q, Find(b, q));
    }
  }

  lemma DeleteFromBucket(b: Bucket, key: Key, q: Key, d: Value)
    requires Distinct(b)
    ensures Distinct(Delete(b, key))
    ensures HasKey(Delete(b, key), q) <==> HasKey(b, q) && q != key
    ensures ValueIn(Delete(b, key), q, d) == if q == key then d else ValueIn(b, q, d)
  {
    var b', i := Delete(b, key), Find(b, key);
    if q != key && HasKey(b, q) {
      FindsTheOnly(b', q, if Find(b, q) < i then Find(b, q) else Find(b, q) - 1);
    }
  }

  lemma {:induction false} InsertAllLookup(m: map<Key, Value>, b: Bucket, q: Key, d: Value)
    ensures q in InsertAll(m, b) <==> q in m || HasKey(b, q)
    ensures q in m ==> InsertAll(m, b)[q] == m[q]
    ensures q !in m && HasKey(b, q) ==> InsertAll(m, b)[q] == ValueIn(b, q, d)
    decreases b
  {
    if b != [] {
      InsertAllLookup(if b[0].0 in m then m else m[b[0].0 := b[0].1], b[1..], q, d);
    }
  }

  // ------------------------------------------------------------- the table

  /** `getBucket`. */
  function IndexOf(hash: Key -> nat, n: nat, key: Key): (i: nat)
    requires n > 0
    ensures i < n
  {
    hash(key) % n
  }

  /** The bucket's number is what is left of the hash after whole rounds over the buckets. */
  lemma BucketIsRemainder(hash: Key -> nat, n: nat, key: Key)
    requires n > 0
    ensures hash(key) == n * (hash(key) / n) + IndexOf(hash, n, key)
  {
  }

  /** Every key is in the bucket it hashes to, once. */
  ghost predicate Placed(hash: Key -> nat, bs: seq<Bucket>) {
    && |bs| > 0
    && forall i :: 0 <= i < |bs| ==>
         Distinct(bs[i]) && forall j :: 0 <= j < |bs[i]| ==> IndexOf(hash, |bs|, bs[i][j].0) == i
  }

  ghost predicate PlacedUpTo(hash: Key -> nat, n: nat, bs: seq<Bucket>)
    requires n > 0
  {
    |bs| <= n && forall i :: 0 <= i < |bs| ==>
      forall j :: 0 <= j < |bs[i]| ==> IndexOf(hash, n, bs[i][j].0) == i
  }

  lemma {:induction false} CollectPrefix(hash: Key -> nat, n: nat, bs: seq<Bucket>, q: Key, d: Value)
    requires n > 0 && PlacedUpTo(hash, n, bs)
    ensures var i := IndexOf(hash, n, q);
      && (q in Collect(bs) <==> i < |bs| && HasKey(bs[i], q))
      && (q in Collect(bs) ==> Collect(bs)[q] == ValueIn(bs[i], q, d))
  {
    if bs != [] {
      var k := |bs| - 1;
      assert PlacedUpTo(hash, n, bs[..k]) by {
        forall i | 0 <= i < k
          ensures forall j :: 0 <= j < |bs[..k][i]| ==> IndexOf(hash, n, bs[..k][i][j].0) == i
        {
          assert bs[..k][i] == bs[i];
        }
      }
      CollectPrefix(hash, n, bs[..k], q, d);
      InsertAllLookup(Collect(bs[..k]), bs[k], q, d);
    }
  }

  /** The collected map holds exactly what each key's own bucket says. */
  lemma {:induction false} CollectLookup(hash: Key -> nat, bs: seq<Bucket>, q: Key, d: Value)
    requires Placed(hash, bs)
    ensures var b := bs[IndexOf(hash, |bs|, q)];
      && (q in Collect(bs) <==> HasKey(b, q))
      && ValueIn(b, q, d) == if q in Collect(bs) then Collect(bs)[q] else d
  {
    CollectPrefix(hash, |bs|, bs, q, d);
  }

  function TablePut(hash: Key -> nat, bs: seq<Bucket>, key: Key, value: Value): seq<Bucket>
    requires |bs| > 0
  {
    var i := IndexOf(hash, |bs|, key);
    bs[i := Put(bs[i], key, value)]
  }

  function TableDelete(hash: Key -> nat, bs: seq<Bucket>, key: Key): seq<Bucket>
    requires |bs| > 0
  {
    var i := IndexOf(hash, |bs|, key);
    bs[i := Delete(bs[i], key)]
  }

  lemma PutKeepsPlaced(hash: Key -> nat, bs: seq<Bucket>, key: Key, value: Value)
    requires Placed(hash, bs)
    ensures Placed(hash, TablePut(hash, bs, key, value))
  {
    PutInBucket(bs[IndexOf(hash, |bs|, key)], key, value, key, value);
  }

  lemma DeleteKeepsPlaced(hash: Key -> nat, bs: seq<Bucket>, key: Key)
    requires Placed(hash, bs)
    ensures Placed(hash, TableDelete(hash, bs, key))
  {
    var b := bs[IndexOf(hash, |bs|, key)];
    if HasKey(b, key) {
      DeleteFromBucket(b, key, key, b[Find(b, key)].1);
    } else {
      assert TableDelete(hash, bs, key) == bs;
    }
  }

  /** `addOrUpdateFor` is update of the plain map, for every hash function. */
  lemma {:induction false} PutIsMapUpdate(hash: Key -> nat, bs: seq<Bucket>, key: Key, value: Value)
    requires Placed(hash, bs)
    ensures Collect(TablePut(hash, bs, key, value)) == Collect(bs)[key := value]
  {
    var bs' := TablePut(hash, bs, key, value);
    PutKeepsPlaced(hash, bs, key, value);
    forall q ensures q in Collect(bs') <==> q in Collect(bs)[key := value]
             ensures q in Collect(bs') ==> Collect(bs')[q] == Collect(bs)[key := value][q]
    {
      CollectLookup(hash, bs, q, value);
      CollectLookup(hash, bs', q, value);
      PutInBucket(bs[IndexOf(hash, |bs|, key)], key, value, q, value);
    }
  }

  /** `removeFor` is removal from the plain map, for every hash function. */
  lemma {:induction false} DeleteIsMapRemoval(hash: Key -> nat, bs: seq<Bucket>, key: Key)
    requires Placed(hash, bs)
    ensures Collect(TableDelete(hash, bs, key)) == Collect(bs) - {key}
  {
    var bs', b := TableDelete(hash, bs, key), bs[IndexOf(hash, |bs|, key)];
    if HasKey(b, key) {
      var d := b[Find(b, key)].1;
      DeleteKeepsPlaced(hash, bs, key);
      forall q ensures q in Collect(bs') <==> q in Collect(bs) - {key}
               ensures q in Collect(bs') ==> Collect(bs')[q] == (Collect(bs) - {key})[q]
      {
        CollectLookup(hash, bs, q, d);
        CollectLookup(hash, bs', q, d);
        DeleteFromBucket(b, key, q, d);
      }
    } else {
      assert bs' == bs;
      if key in Collect(bs) {
        CollectLookup(hash, bs, key, Collect(bs)[key]);
      }
    }
  }
}
