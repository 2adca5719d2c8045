/** `SafeMap` over an array of buckets changed in place, one operation at a time. */
module MapObject {
  import opened Values
  import opened HashTable

  class SafeMap {
    const hash: Key -> nat
    const buckets: array<Bucket>

    ghost predicate Valid()
      reads this, buckets
    {
      Placed(hash, buckets[..])
    }

    /** The plain map this object stands for. */
    ghost function Contents(): map<Key, Value>
      reads this, buckets
    {
      Collect(buckets[..])
    }

    /** Zero buckets are accepted; only `getBucket` needs one. */
    constructor (buckets: nat, hash: Key -> nat)
      ensures fresh(this.buckets) && this.hash == hash && Contents() == map[]
      ensures Valid() <==> buckets > 0
    {
      this.hash := hash;
      this.buckets := new Bucket[buckets](_ => []);
      new;
      EmptyBucketsCollectToNothing(this.buckets[..]);
    }

    /** `getBucket` */
    method GetBucket(key: Key) returns (i: nat)
      requires Valid()
      ensures i < buckets.Length && i == IndexOf(hash, buckets.Length, key)
    {
      i := hash(key) % buckets.Length;
    }

    /** `findEntryFor`: `std::find_if` over the bucket. */
    method FindEntryFor(b: Bucket, key: Key) returns (i: nat)
      ensures i == Find(b, key)
    {
      i := 0;
      while i < |b| && b[i].0 != key
        invariant i <= |b| && forall j :: 0 <= j < i ==> b[j].0 != key
      {
        i := i + 1;
      }
    }

    method ValueFor(key: Key, default: Value) returns (v: Value)
      requires Valid()
      ensures v == if key in Contents() then Contents()[key] else default
    {
      var k := GetBucket(key);
      var i := FindEntryFor(buckets[k], key);
      v := if i == |buckets[k]| then default else buckets[k][i].1;
      CollectLookup(hash, buckets[..], key, default);
    }

    method AddOrUpdateFor(key: Key, value: Value)
      requires Valid()
      modifies buckets
      ensures Valid() && Contents() == old(Contents())[key := value]
    {
      ghost var before := buckets[..];
      var k := GetBucket(key);
      var i := FindEntryFor(buckets[k], key);
      if i == |buckets[k]| {
        buckets[k] := buckets[k] + [(key, value)];
      } else {
        buckets[k] := buckets[k][i := (key, value)];
      }
      assert buckets[..] == TablePut(hash, before, key, value);
      PutKeepsPlaced(hash, before, key, value);
      PutIsMapUpdate(hash, before, key, value);
    }

    method RemoveFor(key: Key)
      requires Valid()
      modifies buckets
      ensures Valid() && Contents() == old(Contents()) - {key}
    {
      ghost var before := buckets[..];
      var k := GetBucket(key);
      var i := FindEntryFor(buckets[k], key);
      if i != |buckets[k]| {
        buckets[k] := buckets[k][..i] + buckets[k][i + 1..];
      }
      assert buckets[..] == TableDelete(hash, before, key);
      DeleteKeepsPlaced(hash, before, key);
      DeleteIsMapRemoval(hash, before, key);
    }

    method GetMap() returns (res: map<Key, Value>)
      ensures res == Contents()
    {
      res := map[];
      for k := 0 to buckets.Length
        invariant res == Collect(buckets[..k])
      {
        var b := buckets[k];
        ghost var start := res;
        for i := 0 to |b|
          invariant InsertAll(start, b) == InsertAll(res, b[i..])
        {
          if b[i].0 !in res {
            res := res[b[i].0 := b[i].1];
          }
        }
        assert buckets[..k + 1][..k] == buckets[..k];
      }
      assert buckets[..buckets.Length] == buckets[..];
    }
  }

  lemma {:induction false} EmptyBucketsCollectToNothing(bs: seq<Bucket>)
    requires forall i :: 0 <= i < |bs| ==> bs[i] == []
    ensures Collect(bs) == map[]
  {
    if bs != [] {
      EmptyBucketsCollectToNothing(bs[..|bs| - 1]);
    }
  }
}
