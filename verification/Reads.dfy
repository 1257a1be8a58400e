/** Point lookups: the buffer, then the open runs, stopping at the first that has
    a record. */
module Reads {
  import opened Bytes
  import opened Records
  import opened Codec
  import opened RunFormat
  import opened Checksum
  import opened RunLayout
  import opened Cache
  import opened SsTables
  import opened MemTables

  // ---------------------------------------------------------------------- runs

  /** The file a table is stored as. */
  ghost function Image(t: Table): seq<byte> { FileOf(Listing(t)) }

  /** Within the modelled limits: every length at most 2^30, and a file of under
      2^44 bytes, hence at most 2^32 blocks. */
  ghost predicate Fits(t: Table) {
    AllSmall(Listing(t)) && |Image(t)| < 0x1000_0000_0000
  }

  /** An open run: its file number, cache id, table and, possibly, filter. */
  datatype Run = RunHandle(num: nat, id: nat, table: SsTable, filter: Option<set<Key>>)

  /** `r` is an open handle on a run holding exactly `t`. */
  ghost predicate RunHolds(r: Run, t: Table) {
    && TableFor(r.table, Listing(t)) && |r.table.index| <= U32
    && (r.filter.Some? ==> t.Keys <= r.filter.value)
  }

  ghost predicate RunsHold(runs: seq<Run>, ts: seq<Table>) {
    |runs| == |ts| && forall i :: 0 <= i < |runs| ==> RunHolds(runs[i], ts[i])
  }

  /** The cache's view of a run is the run. */
  ghost predicate Cacheable(truth: Truth, r: Run) { TruthOf(truth, r.id, r.table) }

  ghost predicate AllCacheable(truth: Truth, runs: seq<Run>) {
    forall i :: 0 <= i < |runs| ==> Cacheable(truth, runs[i])
  }

  /** Open a file as a run: it opens exactly if it parses, and a file that stores
      `t` yields a handle on `t`. */
  method OpenRun(num: nat, id: nat, file: seq<byte>, filter: Option<set<Key>>, ghost t: Table) returns (r: Result<Run>)
    ensures r.Ok? <==> Opened(file).Ok?
    ensures r.Ok? ==> r.value.num == num && r.value.id == id && Ok(r.value.table) == Opened(file) && r.value.filter == filter
    ensures Fits(t) && file == Image(t) && (filter.Some? ==> t.Keys <= filter.value) ==> r.Ok? && RunHolds(r.value, t)
  {
    hide Opened, TableFor, FileOf, Handles, Data;
    var table := Open(file);
    if Fits(t) && file == Image(t) {
      ghost var es := Listing(t);
      WrittenRunOpens(es);
      IndexFits(table.value, es);
    }
    if table.Err? {
      return Err(table.error);
    }
    r := Ok(RunHandle(num, id, table.value, filter));
  }

  lemma IndexFits(t: SsTable, es: seq<Entry>)
    requires TableFor(t, es) && |FileOf(es)| < 0x1000_0000_0000
    ensures |t.index| <= U32 && AscendingHandles(t.index)
  {
    hide EncodeAll, Blocks, EncodeIndex, Crc32c, Footer;
    BlocksNonempty(es);
    BlocksAreOk(es);
    FileHoldsAll(es);
    BlockCountBound(Blocks(es));
    HandlesAreOk(Blocks(es));
  }

  /** Write a table out, entry by entry in key order; only entries too long for
      the format are refused. */
  method WriteRun(entries: seq<Entry>) returns (r: Result<seq<byte>>)
    ensures r.Ok? ==> r.value == FileOf(entries)
    ensures r.Err? ==> exists i :: 0 <= i < |entries| && !Pushable(entries[..i], entries[i])
    ensures AllSmall(entries) ==> r.Ok?
  {
    hide FileOf, Pushable, SsTableWriter.Valid;
    var writer := new SsTableWriter();
    for i := 0 to |entries|
      invariant writer.Valid() && writer.pushed == entries[..i]
      invariant fresh(writer)
    {
      if Small(entries[i]) { SmallIsPushable(entries[..i], entries[i]); }
      var pushed := writer.Push(entries[i]);
      if pushed.Err? {
        return Err(pushed.error);
      }
      assert entries[..i + 1] == entries[..i] + [entries[i]];
    }
    assert entries[..|entries|] == entries;
    r := writer.Finish();
  }

  lemma SmallIsPushable(pushed: seq<Entry>, e: Entry)
    requires Small(e)
    ensures Pushable(pushed, e)
  {
    hide EncodeEntry, Cut;
    CutSound(pushed);
    PushCut(pushed, e);
  }

  // --------------------------------------------------------------- point reads

  /** A filter rules out exactly the keys it does not answer yes for, so none that was
      added; without one every run is consulted. */
  method MightContain(filter: Option<set<Key>>, key: Key) returns (b: bool)
    ensures b <==> filter.None? || key in filter.value
  {
    b := filter.None? || key in filter.value;
  }

  function ValueAt(db: Db, key: Key): Option<seq<byte>> {
    if key in db then Some(db[key]) else None
  }

  lemma {:induction false} OverlayFirst(ts: seq<Table>, i: nat, key: Key)
    requires i < |ts| && key in ts[i] && forall j :: 0 <= j < i ==> key !in ts[j]
    ensures key in Overlay(ts) && Overlay(ts)[key] == ts[i][key]
  {
    if i > 0 {
      assert ts[1..][i - 1] == ts[i];
      OverlayFirst(ts[1..], i - 1, key);
    }
  }

  lemma {:induction false} OverlayNone(ts: seq<Table>, key: Key)
    requires forall j :: 0 <= j < |ts| ==> key !in ts[j]
    ensures key !in Overlay(ts)
  {
    if ts != [] { OverlayNone(ts[1..], key); }
  }

  /** What the buffer says about a key, if it says anything: a tombstone answers
      as much as a value does. */
  method LookupBuffer(mem: MemTable, key: Key) returns (answer: Option<Option<seq<byte>>>)
    ensures answer.Some? <==> key in mem.entries
    ensures answer.Some? ==> forall ts :: answer.value == ValueAt(View(mem.entries, ts), key)
  {
    var record := mem.Get(key);
    match record {
      case Some(Value(v)) => answer := Some(Some(v));
      case Some(Tombstone) => answer := Some(None);
      case None => answer := None;
    }
  }

  /** Below a buffer without the key, the runs alone answer. */
  lemma BelowBuffer(mem: Table, ts: seq<Table>, key: Key)
    requires key !in mem
    ensures ValueAt(View(mem, ts), key) == ValueAt(View(map[], ts), key)
  {
    hide Overlay;
  }

  /** Look a key up in the runs newest first: each that its filter does not rule
      out, through the block cache. */
  method SearchRuns(runs: seq<Run>, key: Key, cache: BlockCache, ghost truth: Truth, ghost ts: seq<Table>)
    returns (r: Result<Option<seq<byte>>>)
    requires RunsHold(runs, ts) && AllCacheable(truth, runs) && cache.Valid() && cache.Coherent(truth)
    modifies cache.Footprint()
    ensures cache.Valid() && cache.Coherent(truth)
    ensures r == Ok(ValueAt(View(map[], ts), key))
  {
    hide TableFor, Overlay, Find, TruthOf, AnswersFrom, Candidate, BlockCache.Valid, BlockCache.Coherent;
    for i := 0 to |runs|
      invariant cache.Valid() && cache.Coherent(truth)
      invariant forall j :: 0 <= j < i ==> key !in ts[j]
    {
      var maybe := MightContain(runs[i].filter, key);
      if maybe {
        ghost var es := Listing(ts[i]);
        assert AscendingHandles(runs[i].table.index) by { HandlesAscend(runs[i].table, es); }
        var found := SsTables.Lookup(runs[i].table, runs[i].id, key, cache, truth);
        assert found == Ok(Find(es, key));
        FindIsLookup(es, key);
        if found.value.Some? {
          OverlayFirst(ts, i, key);
          return Ok(if found.value.value.Value? then Some(found.value.value.value) else None);
        }
      }
    }
    OverlayNone(ts, key);
    r := Ok(None);
  }

  lemma HandlesAscend(t: SsTable, es: seq<Entry>)
    requires TableFor(t, es)
    ensures AscendingHandles(t.index)
  {
    hide EncodeAll, Blocks, EncodeIndex, Crc32c, Footer;
    BlocksAreOk(es);
    var bs := Blocks(es);
    forall i, j | 0 <= i < j < |bs| ensures Less(HandleOf(bs, i).lastKey, HandleOf(bs, j).lastKey) { }
  }
}
