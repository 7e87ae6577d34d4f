/** The two persistence layers the core talks to: the key/value settings table
    (`Storage`) and the blob file store (`FileStorage`). */
module Storage {
  import opened Wrappers
  import opened Text

  newtype byte = x: int | 0 <= x < 256

  /** The entries whose key starts with `prefix`, and no other. */
  function Filter<V>(data: map<string, V>, prefix: string): (r: map<string, V>)
    ensures forall k :: k in r <==> k in data && StartsWith(k, prefix)
    ensures forall k :: k in r ==> r[k] == data[k]
  {
    map k | k in data && StartsWith(k, prefix) :: data[k]
  }

  /** The settings table: each key holds at most one value. Reads are reliable; a
      write or a delete may fail, which the caller passes in as `fault`. */
  class KvStore<V> {
    var data: map<string, V>

    constructor(init: map<string, V>)
      ensures data == init
    {
      data := init;
    }

    /** `getAsync(key, default)`: the stored value, or nothing (the caller then uses
        its default). */
    function Get(key: string): (r: Option<V>)
      reads this
      ensures r.Some? <==> key in data
      ensures r.Some? ==> r.value == data[key]
    {
      if key in data then Some(data[key]) else None
    }

    /** `getAllAsync(prefix)`. */
    function WithPrefix(prefix: string): map<string, V>
      reads this
    {
      Filter(data, prefix)
    }

    /** `setAsync(key, value)`: an upsert that reports `false` instead of throwing. */
    method Set(key: string, value: V, fault: bool) returns (ok: bool)
      modifies this
      ensures ok == !fault
      ensures ok ==> data == old(data)[key := value]
      ensures !ok ==> data == old(data)
      ensures ok ==> Get(key) == Some(value)
      ensures forall k :: k != key ==> Get(k) == old(Get(k))
    {
      ok := !fault;
      if ok {
        data := data[key := value];
      }
    }

    /** `deleteAsync(key)`: deleting a key that is not there is an error of the
        database, so it reports `false` like any other failure. */
    method Delete(key: string, fault: bool) returns (ok: bool)
      modifies this
      ensures ok <==> !fault && key in old(data)
      ensures ok ==> data == old(data) - {key}
      ensures !ok ==> data == old(data)
      ensures Get(key).None? <==> ok || old(Get(key)).None?
      ensures forall k :: k != key ==> Get(k) == old(Get(k))
    {
      ok := !fault && key in data;
      if ok {
        data := data - {key};
      }
    }
  }

  /** The blob store: a file is its bytes, filed under a directory and a name. */
  class BlobStore {
    var files: map<(string, string), seq<byte>>

    constructor(init: map<(string, string), seq<byte>>)
      ensures files == init
    {
      files := init;
    }

    /** `readFile(dir, name)`: the file's bytes, or nothing when it cannot be read. */
    function Read(dir: string, name: string): (r: Option<seq<byte>>)
      reads this
      ensures r.Some? <==> (dir, name) in files
      ensures r.Some? ==> r.value == files[(dir, name)]
    {
      if (dir, name) in files then Some(files[(dir, name)]) else None
    }

    /** `writeFile(dir, name, bytes)`: creates or overwrites the file; a failed upload
        is reported as `false` and changes nothing. */
    method Write(dir: string, name: string, content: seq<byte>, fault: bool) returns (ok: bool)
      modifies this
      ensures ok == !fault
      ensures ok ==> files == old(files)[(dir, name) := content]
      ensures !ok ==> files == old(files)
      ensures ok ==> Read(dir, name) == Some(content)
      ensures forall d, n :: (d, n) != (dir, name) ==> Read(d, n) == old(Read(d, n))
    {
      ok := !fault;
      if ok {
        files := files[(dir, name) := content];
      }
    }
  }
}
