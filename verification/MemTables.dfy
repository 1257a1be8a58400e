/** The write buffer: a sorted map from key to latest record, with a running
    count of the bytes it holds. */
module MemTables {
  import opened Bytes
  import opened Records
  import opened Sizes

  class MemTable {
    var entries: Table
    var approxSize: nat

    /** The counter is the summed key and value length of what is held. */
    ghost predicate Valid()
      reads this
    {
      approxSize == SizeOf(entries)
    }

    constructor ()
      ensures Valid() && entries == map[] && approxSize == 0
    {
      entries := map[];
      approxSize := 0;
    }

    /** Replace any record for `key`; the counter cannot underflow. */
    method Apply(key: Key, record: Record)
      requires Valid()
      modifies this
      ensures Valid() && entries == old(entries)[key := record]
    {
      var added := |key| + record.ValueLen();
      ReplaceSize(entries, key, record);
      if key in entries {
        assert approxSize >= entries[key].ValueLen();
        approxSize := approxSize - entries[key].ValueLen() + record.ValueLen();
      } else {
        approxSize := approxSize + added;
      }
      entries := entries[key := record];
    }

    method Get(key: Key) returns (r: Option<Record>)
      ensures r == if key in entries then Some(entries[key]) else None
    {
      r := if key in entries then Some(entries[key]) else None;
    }

    /** Every buffered record once, sorted by key. */
    method Iter() returns (s: seq<Entry>)
      ensures Ascending(s) && TableOf(s) == entries
    {
      s := Listing(entries);
    }

    method Take() returns (taken: Table)
      requires Valid()
      modifies this
      ensures Valid() && entries == map[] && approxSize == 0 && taken == old(entries)
    {
      approxSize := 0;
      taken := entries;
      entries := map[];
    }
  }

  /** How overwriting one key changes the total. */
  lemma ReplaceSize(t: Table, k: Key, r: Record)
    ensures k in t ==> SizeOf(t[k := r]) == SizeOf(t) - t[k].ValueLen() + r.ValueLen() && SizeOf(t) >= t[k].ValueLen()
    ensures k !in t ==> SizeOf(t[k := r]) == SizeOf(t) + |k| + r.ValueLen()
  {
    SizeSplit(t[k := r], k);
    if k in t {
      SizeSplit(t, k);
      assert t[k := r] - {k} == t - {k};
    } else {
      assert t[k := r] - {k} == t;
    }
  }
}
