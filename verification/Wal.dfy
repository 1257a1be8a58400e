/** The write-ahead log: one record per acknowledged write or batch. */
module Wal {
  import opened Bytes
  import opened Records
  import opened Codec
  import opened MemTables

  // ------------------------------------------------------------- record format

  /** An operation count, then the operations. */
  function RecordBytes(ops: Batch): seq<byte> {
    Le32(|ops|) + EncodeAll(ops)
  }

  /** What a log record can carry faithfully: counts and lengths within the cap. */
  predicate Loggable(ops: Batch) {
    |ops| < U32 && AllSmall(ops)
  }

  ghost predicate Accepts(bytes: seq<byte>, ops: Batch) {
    Loggable(ops) && RecordBytes(ops) == bytes
  }

  /** The meaning of a record: the one list of operations it encodes, if any. */
  ghost function Decoded(bytes: seq<byte>): Result<Batch> {
    if ops :| Accepts(bytes, ops) then Ok(ops) else Err(Corruption)
  }

  /** Records are self-delimiting: no accepted byte string is a proper prefix, and
      so none is a proper extension, of another. */
  lemma RecordsSelfDelimiting(a: seq<byte>, b: seq<byte>, x: Batch, y: Batch)
    requires Accepts(a, x) && Accepts(b, y) && a <= b
    ensures a == b && x == y
  {
    hide Le32;
    assert Le32(|x|) == a[..4] == b[..4] == Le32(|y|);
    Le32RoundTrip(|x|); Le32RoundTrip(|y|);
    assert EncodeAll(x) == a[4..] && EncodeAll(y) == b[4..];
    assert a[4..] <= b[4..];
    EntriesPrefixFree();
    ConcatUnique(EncodeEntry, Small, x, y);
    assert x == y[..|x|] == y;
  }

  /** Logging then replaying a batch gives it back exactly when its operation
      count and every length are within the cap; beyond it the casts truncate and
      the record reads as corrupt or as something else. */
  lemma RecordRoundTrip(ops: Batch)
    ensures Decoded(RecordBytes(ops)) == Ok(ops) <==> Loggable(ops)
  {
    if Loggable(ops) {
      assert Accepts(RecordBytes(ops), ops);
      var found := Decoded(RecordBytes(ops)).value;
      RecordsSelfDelimiting(RecordBytes(ops), RecordBytes(ops), ops, found);
    }
  }

  predicate AllWide(ops: Batch) {
    forall i :: 0 <= i < |ops| ==> Wide(ops[i])
  }

  /** As long as no prefix is truncated, the bytes decide the batch. */
  lemma WideRecordsDiffer(a: Batch, b: Batch)
    requires |a| < U32 && |b| < U32 && AllWide(a) && AllWide(b) && RecordBytes(a) == RecordBytes(b)
    ensures a == b
  {
    hide Le32, EncodeEntry;
    assert EncodeAll(a) == RecordBytes(a)[4..] == RecordBytes(b)[4..] == EncodeAll(b);
    WidePrefixFree();
    ConcatUnique(EncodeEntry, Wide, a, b);
    ConcatUnique(EncodeEntry, Wide, b, a);
  }

  /** A batch with a length over the cap is logged without complaint, and its
      record never decodes. */
  lemma OversizeNeverDecodes(ops: Batch)
    requires |ops| < U32 && AllWide(ops) && !AllSmall(ops)
    ensures Decoded(RecordBytes(ops)).Err?
  {
    hide RecordBytes;
    if Decoded(RecordBytes(ops)).Ok? { WideRecordsDiffer(ops, Decoded(RecordBytes(ops)).value); }
  }

  lemma EncodeNext(ops: Batch, i: nat)
    requires i < |ops|
    ensures EncodeAll(ops[..i + 1]) == EncodeAll(ops[..i]) + EncodeEntry(ops[i])
  {
    assert ops[..i + 1][..i] == ops[..i];
  }

  method Encode(ops: Batch) returns (buf: seq<byte>)
    ensures buf == RecordBytes(ops)
  {
    hide Le32, EncodeEntry;
    buf := Le32(|ops|);
    for i := 0 to |ops|
      invariant buf == Le32(|ops|) + EncodeAll(ops[..i])
    {
      EncodeNext(ops, i);
      buf := buf + EncodeEntry(ops[i]);
    }
    assert ops[..|ops|] == ops;
  }

  /** `done` is what any list encoded by `bytes` begins with. */
  lemma DecodedPrefix(bytes: seq<byte>, count: nat, done: Batch, pos: nat, ops: Batch)
    requires count < U32 && AllSmall(done) && pos == 4 + |EncodeAll(done)| <= |bytes|
    requires At(bytes, 0, Le32(count)) && At(bytes, 4, EncodeAll(done))
    requires Accepts(bytes, ops)
    ensures |ops| == count && done <= ops
    ensures |done| < count ==> At(bytes, pos, EncodeEntry(ops[|done|]))
    ensures |done| == count ==> pos == |bytes|
  {
    hide Le32, EncodeEntry, EncodeAll, PrefixFree;
    assert bytes[0..4] == Le32(|ops|);
    Le32RoundTrip(count); Le32RoundTrip(|ops|);
    assert EncodeAll(ops) == bytes[4..];
    assert EncodeAll(done) <= EncodeAll(ops) by { assert bytes[4..][..|EncodeAll(done)|] == bytes[4..pos]; }
    DecodedFirst(done, ops);
    if |done| < count {
      NextAt(bytes, done, ops);
    } else {
      assert ops[..|ops|] == ops;
    }
  }

  lemma DecodedFirst(done: Batch, ops: Batch)
    requires AllSmall(done) && AllSmall(ops) && EncodeAll(done) <= EncodeAll(ops)
    ensures done <= ops && ops[..|done|] == done
  {
    hide EncodeEntry, PrefixFree;
    EntriesPrefixFree();
    ConcatUnique(EncodeEntry, Small, done, ops);
  }

  lemma NextAt(bytes: seq<byte>, done: Batch, ops: Batch)
    requires |bytes| >= 4 && bytes[4..] == EncodeAll(ops) && |done| < |ops| && ops[..|done|] == done
    ensures At(bytes, 4 + |EncodeAll(done)|, EncodeEntry(ops[|done|]))
  {
    hide EncodeEntry;
    ConcatItem(EncodeEntry, ops, |done|);
    var pos, part := |EncodeAll(done)|, EncodeEntry(ops[|done|]);
    assert bytes[4 + pos..4 + pos + |part|] == bytes[4..][pos..pos + |part|];
  }

  /** Parse a record, bounds-checking every field; total on all byte strings. */
  method Decode(bytes: seq<byte>) returns (r: Result<Batch>)
    ensures r == Decoded(bytes)
    ensures r.Ok? ==> Loggable(r.value) && RecordBytes(r.value) == bytes
    ensures r.Err? ==> forall ops :: !Accepts(bytes, ops)
  {
    hide Le32, EncodeEntry, DecodeEntry;
    var head := ReadU32(bytes, 0);
    if head.Err? {
      return Err(Corruption);
    }
    var count, pos, ops := head.value.0, head.value.1, [];
    while |ops| < count
      invariant |ops| <= count < U32 && AllSmall(ops) && pos == 4 + |EncodeAll(ops)| <= |bytes|
      invariant At(bytes, 0, Le32(count)) && At(bytes, 4, EncodeAll(ops))
      decreases count - |ops|
    {
      var item := DecodeEntry(bytes, pos);
      if item.Err? {
        ghost var done := ops;
        forall x | Accepts(bytes, x) ensures false {
          DecodedPrefix(bytes, count, done, pos, x);
          DecodesEntry(bytes, pos, x[|done|]);
        }
        return Err(Corruption);
      }
      DecodedEntry(bytes, pos);
      ConcatExtend(EncodeEntry, bytes, 4, ops, item.value.0);
      ops := ops + [item.value.0];
      pos := item.value.1;
    }
    if pos != |bytes| {
      ghost var done := ops;
      forall x | Accepts(bytes, x) ensures false {
        DecodedPrefix(bytes, count, done, pos, x);
      }
      return Err(Corruption);
    }
    assert bytes == bytes[0..4] + bytes[4..];
    assert Accepts(bytes, ops);
    RecordsSelfDelimiting(bytes, bytes, ops, Decoded(bytes).value);
    return Ok(ops);
  }

  // ------------------------------------------------------------------- the log

  /** Every record decodes. */
  ghost predicate AllDecode(records: seq<seq<byte>>) {
    forall i :: 0 <= i < |records| ==> Decoded(records[i]).Ok?
  }

  ghost function DecodeRecords(records: seq<seq<byte>>): (b: seq<Batch>)
    requires AllDecode(records)
    ensures |b| == |records| && forall i :: 0 <= i < |b| ==> Decoded(records[i]) == Ok(b[i])
  {
    seq(|records|, i requires 0 <= i < |records| => Decoded(records[i]).value)
  }

  /** The log file as the engine sees it: whole records, appended and synced
      atomically. */
  class Durability {
    var wal: Option<seq<seq<byte>>>

    constructor (records: Option<seq<seq<byte>>>)
      ensures wal == Some(if records.Some? then records.value else [])
    {
      wal := Some(if records.Some? then records.value else []);
    }

    ghost predicate Readable()
      reads this
    {
      wal.Some? && AllDecode(wal.value)
    }

    ghost function Batches(): (b: seq<Batch>)
      reads this
      requires Readable()
    {
      DecodeRecords(wal.value)
    }

    /** Append one record for a whole batch; a single write is a batch of one.
        A loggable batch keeps a readable log readable. */
    method LogBatch(ops: Batch) returns (r: Result<()>)
      modifies this
      ensures r.Ok? <==> old(wal).Some?
      ensures wal == if old(wal).Some? then Some(old(wal).value + [RecordBytes(ops)]) else None
      ensures old(Readable()) && Loggable(ops) ==> Readable() && Batches() == old(Batches()) + [ops]
    {
      hide Decoded;
      var bytes := Encode(ops);
      if wal.None? {
        return Err(Corruption);
      }
      RecordRoundTrip(ops);
      wal := Some(wal.value + [bytes]);
      assert old(Readable()) && Loggable(ops) ==> Readable() && Batches() == old(Batches()) + [ops];
      r := Ok(());
    }

    /** Rotation, first half: close the log and remove its file. */
    method Remove()
      modifies this
      ensures wal.None?
    {
      wal := None;
    }

    /** Rotation, second half: start an empty log. */
    method Reopen()
      modifies this
      ensures wal == Some([]) && Readable() && Batches() == []
    {
      wal := Some([]);
    }

    /** Apply every record in append order to a buffer. */
    method Replay(mem: MemTable) returns (r: Result<()>)
      requires mem.Valid()
      modifies mem
      ensures mem.Valid()
      ensures wal.None? ==> r.Err?
      ensures wal.Some? ==> (r.Ok? <==> Readable())
      ensures r.Ok? ==> mem.entries == ReplayOver(old(mem.entries), Batches())
    {
      hide Decoded;
      if wal.None? {
        return Err(Corruption);
      }
      ghost var done: seq<Batch> := [];
      for i := 0 to |wal.value|
        invariant mem.Valid() && |done| == i
        invariant forall j :: 0 <= j < i ==> Decoded(wal.value[j]) == Ok(done[j])
        invariant mem.entries == ReplayOver(old(mem.entries), done)
      {
        var ops := Decode(wal.value[i]);
        if ops.Err? {
          return Err(ops.error);
        }
        ApplyBatch(mem, ops.value);
        ReplayAppend(old(mem.entries), done, ops.value);
        done := done + [ops.value];
      }
      assert Readable() && Batches() == done;
      r := Ok(());
    }
  }

  /** No later operation writes the same key. */
  predicate LastIn(ops: Batch, i: nat)
    requires i < |ops|
  {
    forall j :: i < j < |ops| ==> ops[j].key != ops[i].key
  }

  /** Apply the operations of one batch in order. */
  method ApplyBatch(mem: MemTable, ops: Batch)
    requires mem.Valid()
    modifies mem
    ensures mem.Valid() && mem.entries == ApplyAll(old(mem.entries), ops)
    ensures forall i :: 0 <= i < |ops| && LastIn(ops, i) ==> ops[i].key in mem.entries && mem.entries[ops[i].key] == ops[i].record
  {
    forall i | 0 <= i < |ops| && LastIn(ops, i)
      ensures ops[i].key in ApplyAll(old(mem.entries), ops) && ApplyAll(old(mem.entries), ops)[ops[i].key] == ops[i].record
    {
      LastWriteBuffered(old(mem.entries), ops, i);
    }
    for i := 0 to |ops|
      invariant mem.Valid() && mem.entries == ApplyAll(old(mem.entries), ops[..i])
    {
      assert ops[..i + 1][..i] == ops[..i];
      mem.Apply(ops[i].key, ops[i].record);
    }
    assert ops[..|ops|] == ops;
  }
}
