/**
 The in-memory key-value store: a mapping from string keys to string values
 that is updated in place. The reader-writer lock of the Go implementation only
 serialises the operations, so each method below is one sequential step on
 the `data` field.
 */
module Storage {

  /** Writing a key that is already present keeps the number of keys; writing a new key adds one. */
  lemma SizeAfterPut(m: map<string, string>, key: string, value: string)
    ensures key in m ==> |m[key := value]| == |m|
    ensures key !in m ==> |m[key := value]| == |m| + 1
  {
  }

  /** Removing a present key takes one key away; removing an absent key changes nothing. */
  lemma SizeAfterRemove(m: map<string, string>, key: string)
    ensures key in m ==> |m - {key}| == |m| - 1
    ensures key !in m ==> m - {key} == m
  {
  }

  class DataStorage {
    var data: map<string, string>

    /** A new store holds no entries. */
    constructor ()
      ensures data == map[] && |data| == 0
    {
      data := map[];
    }

    /** Inserts or overwrites the entry for `key`; every other entry is kept. */
    method Set(key: string, value: string)
      modifies this
      ensures data == old(data)[key := value]
      ensures key in data && data[key] == value
      ensures forall k :: k != key ==> (k in data <==> k in old(data))
      ensures forall k :: k != key && k in old(data) ==> data[k] == old(data)[k]
      ensures |data| == if key in old(data) then old(|data|) else old(|data|) + 1
    {
      SizeAfterPut(data, key, value);
      data := data[key := value];
    }

    /** Looks `key` up: the stored value and true, or the empty string and false. */
    method Get(key: string) returns (value: string, found: bool)
      ensures found <==> key in data
      ensures found ==> value == data[key]
      ensures !found ==> value == ""
    {
      if key in data {
        value, found := data[key], true;
      } else {
        value, found := "", false;
      }
    }

    /** Copies every entry, one at a time, into a new mapping equal to the store. */
    method GetAll() returns (snapshot: map<string, string>)
      ensures snapshot == data
    {
      snapshot := map[];
      var pending := data.Keys;
      while pending != {}
        invariant pending <= data.Keys
        invariant snapshot.Keys == data.Keys - pending
        invariant forall k :: k in snapshot ==> snapshot[k] == data[k]
        decreases pending
      {
        var k :| k in pending;
        snapshot := snapshot[k := data[k]];
        pending := pending - {k};
      }
      assert snapshot.Keys == data.Keys;
    }

    /** Removes `key` and reports whether it was present; every other entry is kept. */
    method Delete(key: string) returns (existed: bool)
      modifies this
      ensures existed <==> key in old(data)
      ensures data == old(data) - {key}
      ensures key !in data
      ensures forall k :: k != key ==> (k in data <==> k in old(data))
      ensures forall k :: k != key && k in data ==> data[k] == old(data)[k]
      ensures existed ==> |data| == old(|data|) - 1
      ensures !existed ==> data == old(data)
    {
      SizeAfterRemove(data, key);
      if key in data {
        data := data - {key};
        existed := true;
      } else {
        existed := false;
      }
    }

    /** The number of distinct keys present. */
    method Size() returns (n: nat)
      ensures n == |data.Keys|
    {
      n := |data|;
    }
  }

  /**
   A snapshot taken by GetAll keeps the contents of the moment it was taken,
   whatever is written to the store afterwards.
   */
  method SnapshotSurvivesWrites(store: DataStorage, key: string, value: string, gone: string)
    returns (snapshot: map<string, string>)
    modifies store
    ensures snapshot == old(store.data)
    ensures store.data == (old(store.data)[key := value]) - {gone}
  {
    snapshot := store.GetAll();
    store.Set(key, value);
    var _ := store.Delete(gone);
  }
}
