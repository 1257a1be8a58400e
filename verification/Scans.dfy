/** Draining the merge: the output of a full compaction, and range scans. */
module Scans {
  import opened Bytes
  import opened Records
  import opened Codec
  import opened RunLayout
  import opened SsTables
  import opened Merging
  import opened Cursors
  import opened MergeIterator
  import opened Reads

  // --------------------------------------------------------------------- range

  datatype Bound = Included(key: Key) | Excluded(key: Key) | Unbounded
  datatype Range = Range(start: Bound, end: Bound)
  datatype Pos = Below | In | Above

  /** A key under the start is `Below` even if it is also past the end. */
  function Position(range: Range, key: Key): Pos {
    var below := match range.start
      case Included(s) => Less(key, s)
      case Excluded(s) => !Less(s, key)
      case Unbounded => false;
    if below then Below
    else
      var above := match range.end
        case Included(e) => Less(e, key)
        case Excluded(e) => !Less(key, e)
        case Unbounded => false;
      if above then Above else In
  }

  /** Membership in the range, by its two bounds. */
  predicate Within(range: Range, key: Key) {
    && (range.start.Included? ==> !Less(key, range.start.key))
    && (range.start.Excluded? ==> Less(range.start.key, key))
    && (range.end.Included? ==> !Less(range.end.key, key))
    && (range.end.Excluded? ==> Less(key, range.end.key))
  }

  /** A key is in range exactly when both bounds admit it, whatever the range:
      open, half-open, empty or inverted. */
  lemma InIsWithin(range: Range, key: Key)
    ensures Position(range, key) == In <==> Within(range, key)
  {
  }

  /** Above a range, every larger key is above it too. */
  lemma AboveStays(range: Range, key: Key, later: Key)
    requires Position(range, key) == Above && Less(key, later)
    ensures !Within(range, later)
  {
    match range.end
    case Included(e) => LessTransitive(e, key, later);
    case Excluded(e) =>
      if Less(later, e) { LessTransitive(key, later, e); }
    case Unbounded =>
  }

  function Restrict(db: Db, range: Range): Db {
    map k | k in db && Within(range, k) :: db[k]
  }

  /** What a scan returns, by position: the pairs whose keys both bounds admit, each
      once, in ascending key order, and no others. */
  ghost predicate ListsRange(out: seq<Entry>, db: Db, range: Range) {
    && (forall i, j :: 0 <= i < j < |out| ==> Less(out[i].key, out[j].key))
    && (forall i :: 0 <= i < |out| ==> out[i].key in db && Within(range, out[i].key) && out[i].record == Value(db[out[i].key]))
    && (forall k :: k in db && Within(range, k) ==> exists i :: 0 <= i < |out| && out[i].key == k)
  }

  lemma ListingListsRange(db: Db, range: Range)
    ensures ListsRange(Listing(Values(Restrict(db, range))), db, range)
  {
    hide Less, Within;
    var t := Values(Restrict(db, range));
    var out := Listing(t);
    TableOfKeys(out);
    forall i | 0 <= i < |out|
      ensures out[i].key in db && Within(range, out[i].key) && out[i].record == Value(db[out[i].key])
    {
      ListedAt(t, i);
    }
    forall k | k in db && Within(range, k) ensures exists i :: 0 <= i < |out| && out[i].key == k {
      assert k in t;
    }
  }

  lemma ListedAt(t: Table, i: nat)
    requires i < |Listing(t)|
    ensures var e := Listing(t)[i]; e.key in t && t[e.key] == e.record
  {
    hide Less;
    var out := Listing(t);
    TableOfKeys(out);
    FindIsLookup(out, out[i].key);
    FindAt(out, i);
  }

  lemma {:induction false} FindAt(es: seq<Entry>, i: nat)
    requires Ascending(es) && i < |es|
    ensures Find(es, es[i].key) == Some(es[i].record)
  {
    hide Less;
    if i > 0 {
      LessAsymmetric(es[0].key, es[i].key);
      FindAt(es[1..], i - 1);
    }
  }

  // ------------------------------------------------------------------- cursors

  function Listings(ts: seq<Table>): (r: seq<seq<Entry>>)
    ensures |r| == |ts| && forall i :: 0 <= i < |ts| ==> r[i] == Listing(ts[i])
  {
    seq(|ts|, i requires 0 <= i < |ts| => Listing(ts[i]))
  }

  function NoFailures(n: nat): (f: seq<Option<Error>>)
    ensures |f| == n && AllNone(f)
  {
    seq(n, _ => None)
  }

  /** Cursor `c` is at the start of `rest`, all of which can be read. */
  ghost predicate AtStart(c: RunCursor, rest: seq<Entry>)
    reads c
  {
    c.Valid() && c.Rest() == rest && c.Failure().None?
  }

  method OpenCursor(run: Run, ghost t: Table) returns (c: RunCursor)
    requires RunHolds(run, t)
    ensures fresh(c) && AtStart(c, Listing(t))
  {
    hide TableFor, TailFrom;
    WrittenRest(run.table, Listing(t));
    c := new RunCursor(run.table);
  }

  method OpenCursors(runs: seq<Run>, ghost ts: seq<Table>) returns (cs: seq<RunCursor>)
    requires RunsHold(runs, ts)
    ensures |cs| == |runs|
    ensures forall i :: 0 <= i < |cs| ==> fresh(cs[i]) && AtStart(cs[i], Listing(ts[i]))
    ensures forall i, j :: 0 <= i < j < |cs| ==> cs[i] != cs[j]
  {
    hide AtStart, RunHolds, Listing;
    cs := [];
    for i := 0 to |runs|
      invariant |cs| == i
      invariant forall j :: 0 <= j < i ==> fresh(cs[j]) && AtStart(cs[j], Listing(ts[j]))
      invariant forall j, k :: 0 <= j < k < i ==> cs[j] != cs[k]
    {
      var c := OpenCursor(runs[i], ts[i]);
      cs := cs + [c];
    }
  }

  /** A merge over a memtable snapshot and open runs. */
  method NewMerge(mem: seq<Entry>, runs: seq<Run>, ghost ts: seq<Table>) returns (m: Merge)
    requires Ascending(mem) && RunsHold(runs, ts)
    ensures fresh(m) && fresh(m.Objects()) && m.Apart()
    ensures m.Stands([mem] + Listings(ts), NoFailures(|ts| + 1)) && AllAscending([mem] + Listings(ts))
  {
    hide StandsAt, RunHolds, Listing, Ascending, AtStart, AllAscending, Merge.Stands;
    var it := new MemIter(mem);
    var cs := OpenCursors(runs, ts);
    m := new Merge(it, cs);
    forall i | 0 <= i < |m.sources| ensures fresh(Obj(m.sources[i])) {
      assert i > 0 ==> m.sources[(i - 1) + 1] == Source.Run(cs[i - 1]);
    }
    AllStand(m, it, cs, ts);
    AllAscend(mem, ts);
  }

  lemma AllStand(m: Merge, it: MemIter, cs: seq<RunCursor>, ts: seq<Table>)
    requires |m.sources| == |cs| + 1 && |cs| == |ts| && m.sources[0] == Mem(it)
    requires forall i :: 0 <= i < |cs| ==> m.sources[i + 1] == Source.Run(cs[i]) && AtStart(cs[i], Listing(ts[i]))
    ensures m.Stands([it.rest] + Listings(ts), NoFailures(|ts| + 1))
  {
    hide StandsAt, Listing, AtStart, Listings, NoFailures;
    var rests, fails := [it.rest] + Listings(ts), NoFailures(|ts| + 1);
    forall i | 0 <= i < |m.sources| ensures StandsAt(m.sources[i], rests[i], fails[i]) {
      if i == 0 {
        MemStands(it);
      } else {
        assert m.sources[(i - 1) + 1] == Source.Run(cs[i - 1]);
        CursorStands(cs[i - 1], Listing(ts[i - 1]));
      }
    }
  }

  lemma AllAscend(mem: seq<Entry>, ts: seq<Table>)
    requires Ascending(mem)
    ensures AllAscending([mem] + Listings(ts))
  {
    hide Ascending;
  }

  lemma CursorStands(c: RunCursor, rest: seq<Entry>)
    requires AtStart(c, rest)
    ensures StandsAt(Source.Run(c), rest, None)
  {
  }

  lemma MemStands(it: MemIter)
    ensures StandsAt(Mem(it), it.rest, None)
  {
  }

  lemma {:induction false} NewestOfListings(ts: seq<Table>)
    ensures Newest(Listings(ts)) == Overlay(ts)
  {
    assert Tables(Listings(ts)) == ts;
  }

  lemma NewestWithMem(mem: seq<Entry>, ts: seq<Table>)
    ensures Newest([mem] + Listings(ts)) == Overlay(ts) + TableOf(mem)
  {
    var rests := [mem] + Listings(ts);
    assert rests[1..] == Listings(ts);
    TablesTail(rests);
    NewestOfListings(ts);
  }

  // ---------------------------------------------------------------- compaction

  /** Merge runs into the file of one run: newest record per key, tombstones gone. */
  method MergeRuns(runs: seq<Run>, ghost ts: seq<Table>) returns (r: Result<seq<byte>>, keys: set<Key>)
    requires RunsHold(runs, ts)
    ensures r == Ok(Image(Compacted(ts))) && keys == Compacted(ts).Keys
  {
    hide FileOf, Merged, Less, Listing, Merge.Stands, SsTableWriter.Valid, Listed, Overlay, AllAscending, Total, RunsHold, SmallDb;
    ghost var db := Live(Overlay(ts));
    var m := NewMerge([], runs, ts);
    ghost var rests, fails := [[]] + Listings(ts), NoFailures(|ts| + 1);
    assert Merged(rests) == db by { CompactionStart(ts); }
    HeldIsSmall(runs, ts);
    ListedStart(db);
    var writer := new SsTableWriter();
    keys := {};
    while true
      invariant m.Apart() && m.Stands(rests, fails) && AllAscending(rests) && fresh(m.Objects()) && fresh(writer)
      invariant writer.Valid() && Listed(db, writer.pushed, Merged(rests)) && keys == TableOf(writer.pushed).Keys
      decreases Total(rests)
    {
      var item;
      ghost var left;
      item, left := m.Next(rests, fails);
      if item.Finished? {
        ListedEnd(db, writer.pushed);
        break;
      }
      if item.Failed? {
        assert false;
      } else {
        Emit(writer, item.key, item.value, db, Merged(rests));
        keys := keys + {item.key};
        rests := left;
      }
    }
    r := writer.Finish();
  }

  /** Push one merged pair. */
  method Emit(writer: SsTableWriter, k: Key, v: seq<byte>, ghost db: Db, ghost left: Db)
    requires writer.Valid() && SmallDb(db) && Listed(db, writer.pushed, left)
    requires k in left && left[k] == v && forall j :: j in left ==> j == k || Less(k, j)
    modifies writer
    ensures writer.Valid() && Listed(db, writer.pushed, left - {k})
    ensures TableOf(writer.pushed).Keys == TableOf(old(writer.pushed)).Keys + {k}
  {
    hide Pushable, Less, Listing, SsTableWriter.Valid, Listed, TableOf;
    var e := Entry(k, Value(v));
    ListedStep(db, writer.pushed, left, k);
    assert k in db && db[k] == v by { LeftIsListed(db, writer.pushed, left, k); }
    SmallIsPushable(writer.pushed, e);
    TableOfSnoc(writer.pushed, e);
    var pushed := writer.Push(e);
  }

  lemma CompactionStart(ts: seq<Table>)
    ensures Merged([[]] + Listings(ts)) == Live(Overlay(ts))
  {
    NewestWithMem([], ts);
    assert Overlay(ts) + map[] == Overlay(ts);
  }

  /** Every pair the merge emits is small, as the output as a whole is. */
  lemma LeftIsListed(db: Db, out: seq<Entry>, left: Db, k: Key)
    requires Listed(db, out, left) && k in left
    ensures k in db && db[k] == left[k]
  {
    assert k in Values(left) && k in Values(db) && Values(db)[k] == Value(left[k]);
  }

  /** Every pair is within the readers' length caps. */
  predicate SmallDb(db: Db) {
    forall k :: k in db ==> Small(Entry(k, Value(db[k])))
  }

  /** What open runs hold was read back once, so it can be written and read again. */
  lemma HeldIsSmall(runs: seq<Run>, ts: seq<Table>)
    requires RunsHold(runs, ts)
    ensures SmallDb(Live(Overlay(ts)))
  {
    hide Small, Listing;
    forall i, k | 0 <= i < |ts| && k in ts[i] ensures Small(Entry(k, ts[i][k])) {
      assert RunHolds(runs[i], ts[i]);
      var es := Listing(ts[i]);
      TableOfKeys(es);
      var j :| 0 <= j < |es| && es[j].key == k;
      assert Small(es[j]);
    }
    SmallOverlay(ts);
  }

  lemma {:induction false} SmallOverlay(ts: seq<Table>)
    requires forall i, k :: 0 <= i < |ts| && k in ts[i] ==> Small(Entry(k, ts[i][k]))
    ensures forall k :: k in Overlay(ts) ==> Small(Entry(k, Overlay(ts)[k]))
  {
    if ts != [] {
      forall i, k | 0 <= i < |ts[1..]| && k in ts[1..][i] ensures Small(Entry(k, ts[1..][i][k])) {
        assert ts[1..][i] == ts[i + 1];
      }
      SmallOverlay(ts[1..]);
    }
  }

  // ---------------------------------------------------------------------- scan

  /** The memtable entries in range. */
  function Clip(es: seq<Entry>, range: Range): seq<Entry> {
    if es == [] then []
    else
      var front := Clip(es[..|es| - 1], range);
      if Position(range, es[|es| - 1].key) == In then front + [es[|es| - 1]] else front
  }

  lemma {:induction false} ClipSound(es: seq<Entry>, range: Range)
    requires Ascending(es)
    ensures Ascending(Clip(es, range))
    ensures forall i :: 0 <= i < |Clip(es, range)| ==> Clip(es, range)[i] in es
    ensures forall k :: Within(range, k) ==>
      (k in TableOf(Clip(es, range)) <==> k in TableOf(es)) &&
      (k in TableOf(es) ==> TableOf(Clip(es, range))[k] == TableOf(es)[k])
  {
    hide Less, Position, Within;
    if es != [] {
      var n := |es| - 1;
      var last := es[n];
      ClipSound(es[..n], range);
      InIsWithin(range, last.key);
      var front := Clip(es[..n], range);
      TableOfSnoc(front, last);
      forall i | 0 <= i < |front| ensures Less(front[i].key, last.key) {
        var j :| 0 <= j < n && es[..n][j] == front[i];
        assert es[j] == front[i];
      }
      AscendingSnoc(front, last);
    }
  }

  method ClipMem(es: seq<Entry>, range: Range) returns (r: seq<Entry>)
    ensures r == Clip(es, range)
  {
    hide Position;
    r := [];
    for i := 0 to |es|
      invariant r == Clip(es[..i], range)
    {
      assert es[..i + 1][..i] == es[..i];
      if Position(range, es[i].key) == In {
        r := r + [es[i]];
      }
    }
    assert es[..|es|] == es;
  }

  /** Dropping out-of-range memtable entries, tombstones included, before the
      merge changes nothing inside the range. */
  lemma ClippedMerge(mem: seq<Entry>, ts: seq<Table>, range: Range)
    requires Ascending(mem)
    ensures Restrict(Merged([Clip(mem, range)] + Listings(ts)), range) == Restrict(View(TableOf(mem), ts), range)
  {
    hide Less, Within, Clip, TableOf, Overlay, Listings;
    ClipSound(mem, range);
    NewestWithMem(Clip(mem, range), ts);
    var a, b := Overlay(ts) + TableOf(Clip(mem, range)), Overlay(ts) + TableOf(mem);
    assert forall k :: Within(range, k) ==> (k in a <==> k in b) && (k in a ==> a[k] == b[k]);
  }

  lemma RestrictWithout(db: Db, k: Key, range: Range)
    requires !Within(range, k)
    ensures Restrict(db - {k}, range) == Restrict(db, range)
  {
  }

  lemma RestrictMinus(db: Db, k: Key, range: Range)
    ensures Restrict(db - {k}, range) == Restrict(db, range) - {k}
  {
  }

  /** The live pairs of a range in key order: memtable entries have been clipped
      before the merge, run entries are clipped after it, and the merge is left at
      the first key above the range. */
  method Scan(clipped: seq<Entry>, runs: seq<Run>, range: Range, ghost mem: seq<Entry>, ghost ts: seq<Table>)
    returns (r: Result<seq<Entry>>)
    requires Ascending(mem) && clipped == Clip(mem, range) && RunsHold(runs, ts)
    ensures r == Ok(Listing(Values(Restrict(View(TableOf(mem), ts), range))))
    ensures ListsRange(r.value, View(TableOf(mem), ts), range)
  {
    hide ListsRange, Merged, Less, Listing, Merge.Stands, Position, Within, Restrict, View, Clip;
    ghost var db := Restrict(View(TableOf(mem), ts), range);
    assert Ascending(clipped) by { ClipSound(mem, range); }
    var m := NewMerge(clipped, runs, ts);
    ghost var rests, fails := [clipped] + Listings(ts), NoFailures(|ts| + 1);
    ClippedMerge(mem, ts, range);
    ListedStart(db);
    var out: seq<Entry> := [];
    while true
      invariant m.Apart() && m.Stands(rests, fails) && AllAscending(rests) && fresh(m.Objects())
      invariant Listed(db, out, Restrict(Merged(rests), range))
      decreases Total(rests)
    {
      var item;
      ghost var left;
      item, left := m.Next(rests, fails);
      if item.Finished? {
        NothingInRange(Merged(rests), range);
        break;
      }
      if item.Failed? {
        assert false;
      } else {
        var k := item.key;
        InIsWithin(range, k);
        var pos := Position(range, k);
        if pos == Below {
          RestrictWithout(Merged(rests), k, range);
        } else if pos == In {
          RestrictHas(Merged(rests), k, range);
          ListedStep(db, out, Restrict(Merged(rests), range), k);
          RestrictMinus(Merged(rests), k, range);
          out := out + [Entry(k, Value(item.value))];
        } else {
          AllAbove(Merged(rests), k, range);
          break;
        }
        rests := left;
      }
    }
    ListedEnd(db, out);
    ListingListsRange(View(TableOf(mem), ts), range);
    r := Ok(out);
  }

  lemma NothingInRange(db: Db, range: Range)
    requires db == map[]
    ensures Restrict(db, range) == map[]
  {
  }

  lemma RestrictHas(db: Db, k: Key, range: Range)
    requires k in db && Within(range, k) && forall j :: j in db ==> j == k || Less(k, j)
    ensures k in Restrict(db, range) && Restrict(db, range)[k] == db[k]
    ensures forall j :: j in Restrict(db, range) ==> j == k || Less(k, j)
  {
  }

  lemma AllAbove(db: Db, k: Key, range: Range)
    requires Position(range, k) == Above && forall j :: j in db ==> j == k || Less(k, j)
    ensures Restrict(db, range) == map[]
  {
    hide Less;
    InIsWithin(range, k);
    forall j | j in db ensures !Within(range, j) {
      if j != k { AboveStays(range, k, j); }
    }
  }

  /** A full scan lists exactly what point lookups find. */
  lemma FullScanAgreesWithGet(mem: Table, ts: seq<Table>, key: Key)
    ensures var all := Listing(Values(Restrict(View(mem, ts), Range(Unbounded, Unbounded))));
            Find(all, key) == if ValueAt(View(mem, ts), key).Some? then Some(Value(ValueAt(View(mem, ts), key).value)) else None
  {
    hide View, Listing;
    var db := View(mem, ts);
    assert Restrict(db, Range(Unbounded, Unbounded)) == db;
    FindIsLookup(Listing(Values(db)), key);
  }
}
