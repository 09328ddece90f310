/** The JSON-file record store: one collection per file, read whole, changed
    in memory and written back whole. A file that was never written reads as
    the caller's default; nothing checks that ids are unique. */
module FileDb {
  import opened Js
  import opened Seqs

  /** One collection file. `data` is `None` while the file does not exist;
      `key` reads a record's `id` field. */
  class JsonFile<T> {
    var data: Option<seq<T>>
    const key: T -> Option<string>

    /** A collection whose file has not been written yet. */
    constructor (key: T -> Option<string>)
      ensures data == None && this.key == key
    {
      data := None;
      this.key := key;
    }

    /** `readJson(path, defaultValue)`: the stored array, or the default when
        the file is missing. */
    function ReadJson(default: seq<T>): (r: seq<T>)
      reads this
      ensures data.None? ==> r == default
      ensures data.Some? ==> r == data.value
    {
      if data.Some? then data.value else default
    }

    /** The collection as every operation reads it: `readJson(path, [])`. */
    function Contents(): seq<T>
      reads this
    {
      ReadJson([])
    }

    /** `writeJson`: the file now holds exactly `items`. */
    method WriteJson(items: seq<T>)
      modifies this
      ensures data == Some(items)
      ensures forall d: seq<T> :: ReadJson(d) == items
    {
      data := Some(items);
    }

    /** `appendToArray`: the new collection is the old one with `obj` at the
        end, whatever ids it already holds; `obj` is returned. */
    method AppendToArray(obj: T) returns (r: T)
      modifies this
      ensures data == Some(old(Contents()) + [obj])
      ensures Contents() == old(Contents()) + [obj]
      ensures r == obj
    {
      var arr := ReadJson([]);
      arr := arr + [obj];
      WriteJson(arr);
      r := obj;
    }

    /** The index `findIndex((x) => x.id === id)` returns. */
    function IdIndex(s: seq<T>, id: Option<string>): int
    {
      FirstIndex(s, (x: T) => key(x) == id)
    }

    /** `updateById`: with no record of that id, nothing is written and the
        result is `null`; otherwise the first record with that id is replaced
        by the updater's result, which is returned. */
    method UpdateById(id: Option<string>, updater: T -> T) returns (r: Option<T>)
      modifies this
      ensures var s := old(Contents());
        r.None? <==> forall i :: 0 <= i < |s| ==> key(s[i]) != id
      ensures r.None? ==> data == old(data)
      ensures r.Some? ==>
        var s := old(Contents());
        var k := IdIndex(s, id);
        0 <= k < |s| && key(s[k]) == id && (forall j :: 0 <= j < k ==> key(s[j]) != id)
        && r.value == updater(s[k]) && data == Some(s[k := r.value])
      ensures r.Some? ==>
        var s := old(Contents());
        |Contents()| == |s| && forall j :: 0 <= j < |s| && j != IdIndex(s, id) ==> Contents()[j] == s[j]
    {
      var arr := ReadJson([]);
      var idx := 0;
      while idx < |arr| && key(arr[idx]) != id
        invariant 0 <= idx <= |arr|
        invariant forall j :: 0 <= j < idx ==> key(arr[j]) != id
      {
        idx := idx + 1;
      }
      if idx == |arr| {
        return None;
      }
      assert key(arr[idx]) == id && arr == old(Contents());
      assert IdIndex(arr, id) == idx;
      var updated := updater(arr[idx]);
      arr := arr[idx := updated];
      WriteJson(arr);
      r := Some(updated);
    }
  }

  /** Appending a record whose id is already stored is accepted: afterwards two
      records carry that id. */
  method AppendDuplicateId<T>(key: T -> Option<string>, a: T, b: T) returns (stored: seq<T>)
    requires key(a) == key(b)
    ensures |stored| == 2 && key(stored[0]) == key(stored[1])
  {
    var db := new JsonFile(key);
    var _ := db.AppendToArray(a);
    var _ := db.AppendToArray(b);
    stored := db.Contents();
  }
}
