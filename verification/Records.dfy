/** Records, sorted entry lists and the overlay that gives the engine its meaning.

    A source (the memtable or one run) is a map from key to record. The database
    is the newest-first overlay of the sources with tombstones erased, and every
    other module is proved against that one map. */
module Records {
  import opened Bytes

  type Key = seq<byte>

  /** What a key maps to in one source. */
  datatype Record = Value(value: seq<byte>) | Tombstone {
    function ValueLen(): nat { if Value? then |value| else 0 }
  }

  /** A key with its record: one line of a run, and one write of a batch. */
  datatype Entry = Entry(key: Key, record: Record)

  type Batch = seq<Entry>
  type Table = map<Key, Record>
  type Db = map<Key, seq<byte>>

  // ------------------------------------------------------------------ overlay

  /** The newest record per key; `sources` is newest first. */
  function Overlay(sources: seq<Table>): Table {
    if sources == [] then map[] else Overlay(sources[1..]) + sources[0]
  }

  /** Erase tombstones: the database a table of newest records stands for. */
  function Live(t: Table): Db {
    map k | k in t && t[k].Value? :: t[k].value
  }

  /** The database seen through a memtable over runs. */
  function View(mem: Table, runs: seq<Table>): Db {
    Live(Overlay(runs) + mem)
  }

  /** A database written out as a run: live values only, no tombstones. */
  function Values(db: Db): Table {
    map k | k in db :: Value(db[k])
  }

  /** What a full compaction of `runs` writes. */
  function Compacted(runs: seq<Table>): Table {
    Values(Live(Overlay(runs)))
  }

  /** The database by position: the buffer's record for a key if it has one, else
      that of the first run that has one, else nothing. */
  lemma {:induction false} NewestRecordWins(mem: Table, runs: seq<Table>, k: Key, i: nat)
    requires i <= |runs| && (k in mem ==> i == 0) && forall j :: 0 <= j < i ==> k !in runs[j]
    requires k in mem || i == |runs| || k in runs[i]
    ensures k in View(mem, runs) <==> if k in mem then mem[k].Value? else i < |runs| && runs[i][k].Value?
    ensures k in View(mem, runs) ==> Value(View(mem, runs)[k]) == if k in mem then mem[k] else runs[i][k]
  {
    if k !in mem && i > 0 {
      NewestRecordWins(mem, runs[1..], k, i - 1);
    }
  }

  /** A full compaction writes exactly the visible pairs, and no tombstone. */
  lemma CompactedIsVisible(runs: seq<Table>, k: Key)
    ensures k in Compacted(runs) <==> k in View(map[], runs)
    ensures k in Compacted(runs) ==> Compacted(runs)[k] == Value(View(map[], runs)[k])
  {
    assert Overlay(runs) + map[] == Overlay(runs);
  }

  lemma {:induction false} OverlayConcat(a: seq<Table>, b: seq<Table>)
    ensures Overlay(a + b) == Overlay(b) + Overlay(a)
  {
    if a == [] {
      assert a + b == b;
    } else {
      assert (a + b)[1..] == a[1..] + b;
      OverlayConcat(a[1..], b);
      UnionAssociative(Overlay(b), Overlay(a[1..]), a[0]);
    }
  }

  lemma UnionAssociative(a: Table, b: Table, c: Table)
    ensures (a + b) + c == a + (b + c)
  {
  }

  /** Tombstones with nothing beneath them can be erased from the bottom layer. */
  lemma ErasedBelow(lower: Table, upper: Table)
    ensures Live(Values(Live(lower)) + upper) == Live(lower + upper)
  {
  }

  /** Compacting the oldest runs, tombstones dropped, changes no key's value,
      whatever newer runs and memtable sit above them. */
  lemma CompactionPreservesView(mem: Table, newer: seq<Table>, inputs: seq<Table>)
    ensures View(mem, newer + [Compacted(inputs)]) == View(mem, newer + inputs)
  {
    var upper, lower, output := Overlay(newer), Overlay(inputs), Compacted(inputs);
    OverlayConcat(newer, inputs);
    OverlayConcat(newer, [output]);
    assert Overlay([output]) == output;
    UnionAssociative(lower, upper, mem);
    UnionAssociative(output, upper, mem);
    ErasedBelow(lower, upper + mem);
  }

  /** Moving the memtable into a new newest run changes nothing. */
  lemma FlushPreservesView(mem: Table, runs: seq<Table>)
    ensures View(map[], [mem] + runs) == View(mem, runs)
  {
    assert ([mem] + runs)[1..] == runs;
  }

  /** Replaying writes that already reached the newest run changes nothing, also
      over writes that reached none. */
  lemma ReplayOverFlushed(lost: Table, mem: Table, runs: seq<Table>)
    ensures View(lost + mem, [mem] + runs) == View(lost + mem, runs)
  {
    assert ([mem] + runs)[1..] == runs;
    assert (Overlay(runs) + mem) + (lost + mem) == Overlay(runs) + (lost + mem);
  }

  // ------------------------------------------------------------------- writes

  /** Apply a batch to a source, later writes overriding earlier ones. */
  function ApplyAll(t: Table, batch: Batch): Table {
    if batch == [] then t
    else
      var e := batch[|batch| - 1];
      ApplyAll(t, batch[..|batch| - 1])[e.key := e.record]
  }

  lemma {:induction false} ApplyOver(lower: Table, mem: Table, batch: Batch)
    ensures ApplyAll(lower + mem, batch) == lower + ApplyAll(mem, batch)
  {
    if batch == [] {
      assert ApplyAll(lower + mem, batch) == lower + mem;
    } else {
      ApplyOver(lower, mem, batch[..|batch| - 1]);
    }
  }

  /** Apply logged batches to a buffer in append order. */
  function ReplayOver(t: Table, log: seq<Batch>): Table {
    if log == [] then t
    else ApplyAll(ReplayOver(t, log[..|log| - 1]), log[|log| - 1])
  }

  function Replay(log: seq<Batch>): Table { ReplayOver(map[], log) }

  /** One write against the database itself: the reference semantics. */
  function WriteOne(db: Db, e: Entry): Db {
    match e.record
    case Value(v) => db[e.key := v]
    case Tombstone => db - {e.key}
  }

  function WriteAll(db: Db, batch: Batch): Db {
    if batch == [] then db
    else WriteOne(WriteAll(db, batch[..|batch| - 1]), batch[|batch| - 1])
  }

  /** The database after a history of batches. */
  function Fold(history: seq<Batch>): Db {
    if history == [] then map[]
    else WriteAll(Fold(history[..|history| - 1]), history[|history| - 1])
  }

  // The meaning of a batch, and of a history, by position: the last write to a key
  // decides, and a key nobody writes stays as it was.

  lemma {:induction false} LastWriteWins(db: Db, batch: Batch, i: nat)
    requires i < |batch| && forall j :: i < j < |batch| ==> batch[j].key != batch[i].key
    ensures batch[i].key in WriteAll(db, batch) <==> batch[i].record.Value?
    ensures batch[i].record.Value? ==> WriteAll(db, batch)[batch[i].key] == batch[i].record.value
  {
    var n := |batch| - 1;
    if i < n {
      assert batch[..n][i] == batch[i];
      LastWriteWins(db, batch[..n], i);
    }
  }

  lemma {:induction false} UnwrittenStays(db: Db, batch: Batch, k: Key)
    requires forall j :: 0 <= j < |batch| ==> batch[j].key != k
    ensures k in WriteAll(db, batch) <==> k in db
    ensures k in db ==> WriteAll(db, batch)[k] == db[k]
  {
    if batch != [] { UnwrittenStays(db, batch[..|batch| - 1], k); }
  }

  lemma {:induction false} LastWriteBuffered(t: Table, batch: Batch, i: nat)
    requires i < |batch| && forall j :: i < j < |batch| ==> batch[j].key != batch[i].key
    ensures batch[i].key in ApplyAll(t, batch) && ApplyAll(t, batch)[batch[i].key] == batch[i].record
  {
    var n := |batch| - 1;
    if i < n {
      assert batch[..n][i] == batch[i];
      LastWriteBuffered(t, batch[..n], i);
    }
  }

  lemma {:induction false} UnwrittenUnbuffered(t: Table, batch: Batch, k: Key)
    requires forall j :: 0 <= j < |batch| ==> batch[j].key != k
    ensures k in ApplyAll(t, batch) <==> k in t
    ensures k in t ==> ApplyAll(t, batch)[k] == t[k]
  {
    if batch != [] { UnwrittenUnbuffered(t, batch[..|batch| - 1], k); }
  }

  /** Entry `i` of batch `b` is the last write of the history to its key. */
  predicate LastOf(history: seq<Batch>, b: nat, i: nat) {
    && b < |history| && i < |history[b]|
    && (forall j :: i < j < |history[b]| ==> history[b][j].key != history[b][i].key)
    && (forall c, j :: b < c < |history| && 0 <= j < |history[c]| ==> history[c][j].key != history[b][i].key)
  }

  lemma {:induction false} LastWriteInHistory(history: seq<Batch>, b: nat, i: nat)
    requires LastOf(history, b, i)
    ensures var e := history[b][i];
            && (e.key in Fold(history) <==> e.record.Value?)
            && (e.record.Value? ==> Fold(history)[e.key] == e.record.value)
  {
    hide WriteAll;
    var n := |history| - 1;
    if b == n {
      LastWriteWins(Fold(history[..n]), history[n], i);
    } else {
      assert history[..n][b] == history[b];
      LastWriteInHistory(history[..n], b, i);
      UnwrittenStays(Fold(history[..n]), history[n], history[b][i].key);
    }
  }

  lemma {:induction false} NeverWritten(history: seq<Batch>, k: Key)
    requires forall b, i :: 0 <= b < |history| && 0 <= i < |history[b]| ==> history[b][i].key != k
    ensures k !in Fold(history)
  {
    hide WriteAll;
    if history != [] {
      var n := |history| - 1;
      assert forall i :: 0 <= i < |history[n]| ==> history[n][i].key != k;
      NeverWritten(history[..n], k);
      UnwrittenStays(Fold(history[..n]), history[n], k);
    }
  }

  lemma FoldAppend(history: seq<Batch>, batch: Batch)
    ensures Fold(history + [batch]) == WriteAll(Fold(history), batch)
  {
    assert (history + [batch])[..|history|] == history;
  }

  lemma ReplayAppend(t: Table, log: seq<Batch>, batch: Batch)
    ensures ReplayOver(t, log + [batch]) == ApplyAll(ReplayOver(t, log), batch)
  {
    assert (log + [batch])[..|log|] == log;
  }

  /** Buffering a batch in the memtable is writing it to the database. */
  lemma {:induction false} ApplyIsWrite(mem: Table, runs: seq<Table>, batch: Batch)
    ensures View(ApplyAll(mem, batch), runs) == WriteAll(View(mem, runs), batch)
  {
    if batch != [] {
      var n := |batch| - 1;
      ApplyIsWrite(mem, runs, batch[..n]);
      BufferOne(Overlay(runs), ApplyAll(mem, batch[..n]), batch[n]);
    }
  }

  lemma BufferOne(lower: Table, mem: Table, e: Entry)
    ensures Live(lower + mem[e.key := e.record]) == WriteOne(Live(lower + mem), e)
  {
    assert lower + mem[e.key := e.record] == (lower + mem)[e.key := e.record];
  }

  // -------------------------------------------------------------- sorted lists

  predicate Ascending(s: seq<Entry>) {
    forall i, j :: 0 <= i < j < |s| ==> Less(s[i].key, s[j].key)
  }

  /** The source an entry list stands for (keys are distinct when ascending). */
  function TableOf(s: seq<Entry>): Table {
    if s == [] then map[]
    else TableOf(s[..|s| - 1])[s[|s| - 1].key := s[|s| - 1].record]
  }

  /** Linear search: what a lookup in a sorted run has to equal. */
  function Find(s: seq<Entry>, key: Key): Option<Record> {
    if s == [] then None
    else if s[0].key == key then Some(s[0].record)
    else Find(s[1..], key)
  }

  lemma {:induction false} TableOfKeys(s: seq<Entry>)
    ensures forall k :: k in TableOf(s) <==> exists i :: 0 <= i < |s| && s[i].key == k
  {
    if s != [] {
      var n := |s| - 1;
      TableOfKeys(s[..n]);
      var front := s[..n];
      forall k ensures k in TableOf(s) <==> exists i :: 0 <= i < |s| && s[i].key == k {
        if k in TableOf(s) && k != s[n].key {
          assert k in TableOf(front);
          var i :| 0 <= i < |front| && front[i].key == k;
          assert s[i].key == k;
        }
        if i :| 0 <= i < n && s[i].key == k {
          assert front[i].key == k;
        }
      }
    }
  }

  lemma {:induction false} TableOfAt(s: seq<Entry>, i: nat)
    requires Ascending(s) && i < |s|
    ensures s[i].key in TableOf(s) && TableOf(s)[s[i].key] == s[i].record
  {
    var n := |s| - 1;
    if i < n {
      TableOfAt(s[..n], i);
      LessAsymmetric(s[i].key, s[n].key);
    }
  }

  lemma TableOfOne(e: Entry)
    ensures TableOf([e]) == map[e.key := e.record]
  {
    assert [e][..0] == [];
  }

  lemma {:induction false} TableOfConcat(a: seq<Entry>, b: seq<Entry>)
    ensures TableOf(a + b) == TableOf(a) + TableOf(b)
  {
    if b == [] {
      assert a + b == a;
    } else {
      var n := |b| - 1;
      assert (a + b)[..|a + b| - 1] == a + b[..n];
      TableOfConcat(a, b[..n]);
    }
  }

  /** Linear search in an ascending list is the map lookup. */
  lemma {:induction false} FindIsLookup(s: seq<Entry>, key: Key)
    requires Ascending(s)
    ensures Find(s, key) == if key in TableOf(s) then Some(TableOf(s)[key]) else None
  {
    if s != [] {
      FindIsLookup(s[1..], key);
      assert s == [s[0]] + s[1..];
      TableOfConcat([s[0]], s[1..]);
      TableOfOne(s[0]);
      TableOfAt(s, 0);
    }
  }

  lemma AscendingSplit(a: seq<Entry>, b: seq<Entry>)
    requires Ascending(a + b)
    ensures Ascending(a) && Ascending(b)
    ensures forall i, j :: 0 <= i < |a| && 0 <= j < |b| ==> Less(a[i].key, b[j].key)
  {
    forall i, j | 0 <= i < j < |a| ensures Less(a[i].key, a[j].key) {
      assert (a + b)[i] == a[i] && (a + b)[j] == a[j];
    }
    forall i, j | 0 <= i < j < |b| ensures Less(b[i].key, b[j].key) {
      assert (a + b)[|a| + i] == b[i] && (a + b)[|a| + j] == b[j];
    }
    forall i, j | 0 <= i < |a| && 0 <= j < |b| ensures Less(a[i].key, b[j].key) {
      assert (a + b)[i] == a[i] && (a + b)[|a| + j] == b[j];
    }
  }

  lemma EmptyTable(s: seq<Entry>)
    ensures TableOf(s) == map[] <==> s == []
  {
    if s != [] { assert s[|s| - 1].key in TableOf(s); }
  }

  lemma AscendingSnoc(es: seq<Entry>, e: Entry)
    requires Ascending(es) && (es != [] ==> Less(es[|es| - 1].key, e.key))
    ensures Ascending(es + [e])
  {
    hide Less;
    forall i | 0 <= i < |es| ensures Less(es[i].key, e.key) {
      if i < |es| - 1 { LessTransitive(es[i].key, es[|es| - 1].key, e.key); }
    }
  }

  /** A table has one ascending listing. */
  lemma {:induction false} AscendingUnique(a: seq<Entry>, b: seq<Entry>)
    requires Ascending(a) && Ascending(b) && TableOf(a) == TableOf(b)
    ensures a == b
  {
    hide TableOf, Ascending, Less;
    EmptyTable(a); EmptyTable(b);
    if a != [] {
      FirstIsLeast(a);
      FirstIsLeast(b);
      SameLeast(a[0].key, b[0].key);
      TailTable(a); TailTable(b);
      AscendingUnique(a[1..], b[1..]);
      assert a == [a[0]] + a[1..] && b == [b[0]] + b[1..];
    }
  }

  lemma FirstIsLeast(s: seq<Entry>)
    requires Ascending(s) && s != []
    ensures s[0].key in TableOf(s) && TableOf(s)[s[0].key] == s[0].record
    ensures forall k :: k in TableOf(s) ==> k == s[0].key || Less(s[0].key, k)
  {
    hide TableOf, Less;
    TableOfAt(s, 0);
    TableOfKeys(s);
  }

  lemma SameLeast(x: Key, y: Key)
    requires (y == x || Less(x, y)) && (x == y || Less(y, x))
    ensures x == y
  {
    hide Less;
    if x != y { LessAsymmetric(x, y); }
  }

  /** Dropping the head of an ascending list removes its key and no other. */
  lemma TailTable(s: seq<Entry>)
    requires Ascending(s) && s != []
    ensures Ascending(s[1..]) && TableOf(s[1..]) == TableOf(s) - {s[0].key}
    ensures s[0].key !in TableOf(s[1..])
  {
    assert s == [s[0]] + s[1..];
    TableOfConcat([s[0]], s[1..]);
    TableOfOne(s[0]);
    assert s[0].key !in TableOf(s[1..]) by {
      TableOfKeys(s[1..]);
      forall i | 0 <= i < |s[1..]| ensures s[1..][i].key != s[0].key {
        LessAsymmetric(s[0].key, s[i + 1].key);
      }
    }
  }

  // ------------------------------------------------------------ sorted listing

  lemma {:induction false} LeastKeyExists(keys: set<Key>)
    requires keys != {}
    ensures exists k :: k in keys && forall j :: j in keys ==> j == k || Less(k, j)
  {
    var x :| x in keys;
    if keys - {x} == {} {
      assert keys == {x};
    } else {
      var rest := keys - {x};
      LeastKeyExists(rest);
      var m :| m in rest && forall j :: j in rest ==> j == m || Less(m, j);
      LessIsStrictTotalOrder();
      var k := if Less(x, m) then x else m;
      assert forall j :: j in keys ==> j == x || j in rest;
      assert k in keys && forall j :: j in keys ==> j == k || Less(k, j);
    }
  }

  function LeastKey(keys: set<Key>): (k: Key)
    requires keys != {}
    ensures k in keys && forall j :: j in keys ==> j == k || Less(k, j)
  {
    LeastKeyExists(keys);
    LessIsStrictTotalOrder();
    var k :| k in keys && forall j :: j in keys ==> j == k || Less(k, j);
    k
  }

  /** The entries of a table in key order: how a sorted map is iterated. */
  function Listing(t: Table): (s: seq<Entry>)
    ensures Ascending(s) && TableOf(s) == t
    ensures forall i :: 0 <= i < |s| ==> s[i].key in t && t[s[i].key] == s[i].record
  {
    if t == map[] then []
    else
      var k := LeastKey(t.Keys);
      var rest := Listing(t - {k});
      ListingHead(t, k, rest);
      [Entry(k, t[k])] + rest
  }

  lemma ListingHead(t: Table, k: Key, rest: seq<Entry>)
    requires k in t && forall j :: j in t ==> j == k || Less(k, j)
    requires Ascending(rest) && TableOf(rest) == t - {k}
    requires forall i :: 0 <= i < |rest| ==> rest[i].key in t - {k}
    ensures Ascending([Entry(k, t[k])] + rest) && TableOf([Entry(k, t[k])] + rest) == t
  {
    hide TableOf, Less, Ascending;
    var head := Entry(k, t[k]);
    forall i | 0 <= i < |rest| ensures Less(k, rest[i].key) { }
    AscendingCons(head, rest);
    TableOfConcat([head], rest);
    TableOfOne(head);
    PutBack(t, k);
  }

  lemma PutBack(t: Table, k: Key)
    requires k in t
    ensures map[k := t[k]] + (t - {k}) == t
  {
  }

  lemma AscendingCons(head: Entry, rest: seq<Entry>)
    requires Ascending(rest) && forall i :: 0 <= i < |rest| ==> Less(head.key, rest[i].key)
    ensures Ascending([head] + rest)
  {
  }
}
