/** The bytes of a sorted run: data blocks, index block and footer. */
module RunFormat {
  import opened Bytes
  import opened Records
  import opened Codec

  /** "LSMTBL01" */
  const MAGIC: seq<byte> := [0x4C, 0x53, 0x4D, 0x54, 0x42, 0x4C, 0x30, 0x31]
  const FOOTER_SIZE: nat := 36
  const TARGET_BLOCK_SIZE: nat := 4096

  // -------------------------------------------------------------- data blocks

  ghost predicate IsBlock(bytes: seq<byte>, es: seq<Entry>) {
    AllSmall(es) && Ascending(es) && EncodeAll(es) == bytes
  }

  /** The meaning of a data block: the one ascending entry list it encodes. */
  ghost function ParsedBlock(bytes: seq<byte>): Result<seq<Entry>> {
    if es :| IsBlock(bytes, es) then Ok(es) else Err(Corruption)
  }

  /** Decoding an encoded ascending list returns it, exactly when no length
      exceeds the cap. */
  lemma BlockRoundTrip(es: seq<Entry>)
    requires Ascending(es)
    ensures ParsedBlock(EncodeAll(es)) == Ok(es) <==> AllSmall(es)
  {
    if AllSmall(es) {
      assert IsBlock(EncodeAll(es), es);
      EncodeAllInjective(ParsedBlock(EncodeAll(es)).value, es);
    }
  }

  /** Parse a data block, validating bounds, tags and key order; total on all
      byte strings. */
  method DecodeBlock(bytes: seq<byte>) returns (r: Result<seq<Entry>>)
    ensures r == ParsedBlock(bytes)
    ensures r.Ok? ==> AllSmall(r.value) && Ascending(r.value) && EncodeAll(r.value) == bytes
    ensures r.Err? ==> forall es :: !IsBlock(bytes, es)
  {
    hide Less, EncodeEntry, DecodeEntry;
    EntriesPrefixFree();
    var entries: seq<Entry>, pos := [], 0;
    var prev: Option<Key> := None;
    while pos < |bytes|
      invariant AllSmall(entries) && Ascending(entries) && pos == |EncodeAll(entries)| <= |bytes|
      invariant At(bytes, 0, EncodeAll(entries))
      invariant prev == if entries == [] then None else Some(entries[|entries| - 1].key)
    {
      var item := DecodeEntry(bytes, pos);
      if item.Err? || (prev.Some? && !Less(prev.value, item.value.0.key)) {
        ghost var done := entries;
        forall x: seq<Entry> | IsBlock(bytes, x) ensures false {
          ConcatResume(EncodeEntry, Small, bytes, done, x);
          DecodesEntry(bytes, pos, x[|done|]);
        }
        return Err(Corruption);
      }
      DecodedEntry(bytes, pos);
      ConcatExtend(EncodeEntry, bytes, 0, entries, item.value.0);
      AscendingSnoc(entries, item.value.0);
      prev := Some(item.value.0.key);
      entries := entries + [item.value.0];
      pos := item.value.1;
    }
    assert bytes[0..|bytes|] == bytes;
    BlockRoundTrip(entries);
    return Ok(entries);
  }

  // -------------------------------------------------------------- index block

  /** Where a data block lies and the largest key in it. */
  datatype Handle = Handle(lastKey: Key, offset: nat, len: nat, crc: nat)

  predicate HandleOk(h: Handle) {
    |h.lastKey| <= MAX_LEN && h.offset < U64 && h.len < U32 && h.crc < U32
  }

  function EncodeExtent(h: Handle): (s: seq<byte>)
    ensures |s| == 16
  {
    Le64(h.offset) + (Le32(h.len) + Le32(h.crc))
  }

  function EncodeHandle(h: Handle): (s: seq<byte>)
    ensures |s| == 20 + |h.lastKey|
  {
    Le32(|h.lastKey|) + (h.lastKey + EncodeExtent(h))
  }

  function DecodeHandle(bytes: seq<byte>, pos: nat): (r: Result<(Handle, nat)>)
    requires pos <= |bytes|
    ensures r.Ok? ==> HandleOk(r.value.0) && r.value.1 == pos + |EncodeHandle(r.value.0)| <= |bytes|
  {
    var len :- ReadU32(bytes, pos);
    if len.0 > MAX_LEN then Err(Corruption)
    else
      var key :- ReadBytes(bytes, len.1, len.0);
      var offset :- ReadU64(bytes, key.1);
      var size :- ReadU32(bytes, offset.1);
      var crc :- ReadU32(bytes, size.1);
      Ok((Handle(key.0, offset.0, size.0, crc.0), crc.1))
  }

  /** A handle sits at `pos` when its five fields sit one after another. */
  lemma HandleAt(bytes: seq<byte>, pos: nat, h: Handle)
    ensures At(bytes, pos, EncodeHandle(h)) <==>
      && At(bytes, pos, Le32(|h.lastKey|)) && At(bytes, pos + 4, h.lastKey)
      && At(bytes, pos + 4 + |h.lastKey|, Le64(h.offset))
      && At(bytes, pos + 12 + |h.lastKey|, Le32(h.len))
      && At(bytes, pos + 16 + |h.lastKey|, Le32(h.crc))
  {
    hide Le32, Le64;
    var k := pos + 4 + |h.lastKey|;
    AtConcat(bytes, pos, Le32(|h.lastKey|), h.lastKey + EncodeExtent(h));
    AtConcat(bytes, pos + 4, h.lastKey, EncodeExtent(h));
    AtConcat(bytes, k, Le64(h.offset), Le32(h.len) + Le32(h.crc));
    AtConcat(bytes, k + 8, Le32(h.len), Le32(h.crc));
  }

  lemma DecodedHandle(bytes: seq<byte>, pos: nat)
    requires pos <= |bytes| && DecodeHandle(bytes, pos).Ok?
    ensures At(bytes, pos, EncodeHandle(DecodeHandle(bytes, pos).value.0))
  {
    hide Le32, Le64, EncodeHandle, ReadU32, ReadU64, ReadBytes;
    HandleAt(bytes, pos, DecodeHandle(bytes, pos).value.0);
  }

  lemma DecodesHandle(bytes: seq<byte>, pos: nat, h: Handle)
    requires HandleOk(h) && At(bytes, pos, EncodeHandle(h))
    ensures pos <= |bytes| && DecodeHandle(bytes, pos) == Ok((h, pos + |EncodeHandle(h)|))
  {
    hide Le32, Le64, EncodeHandle, ReadU32, ReadU64, ReadBytes;
    HandleAt(bytes, pos, h);
    var k := pos + 4 + |h.lastKey|;
    ReadsU32(bytes, pos, |h.lastKey|);
    ReadsU64(bytes, k, h.offset);
    ReadsU32(bytes, k + 8, h.len);
    ReadsU32(bytes, k + 12, h.crc);
  }

  lemma HandlesPrefixFree()
    ensures PrefixFree(EncodeHandle, HandleOk)
  {
    forall x, y, bytes, pos: nat | HandleOk(x) && HandleOk(y) && At(bytes, pos, EncodeHandle(x)) && At(bytes, pos, EncodeHandle(y))
      ensures x == y
    {
      DecodesHandle(bytes, pos, x);
      DecodesHandle(bytes, pos, y);
    }
  }

  predicate AllHandlesOk(hs: seq<Handle>) {
    forall i :: 0 <= i < |hs| ==> HandleOk(hs[i])
  }

  predicate AscendingHandles(hs: seq<Handle>) {
    forall i, j :: 0 <= i < j < |hs| ==> Less(hs[i].lastKey, hs[j].lastKey)
  }

  function EncodeIndex(hs: seq<Handle>): seq<byte> { Concat(EncodeHandle, hs) }

  ghost predicate IsIndex(bytes: seq<byte>, hs: seq<Handle>) {
    AllHandlesOk(hs) && AscendingHandles(hs) && EncodeIndex(hs) == bytes
  }

  ghost function ParsedIndex(bytes: seq<byte>): Result<seq<Handle>> {
    if hs :| IsIndex(bytes, hs) then Ok(hs) else Err(Corruption)
  }

  /** Index parsing inverts index encoding, exactly for handles within range. */
  lemma IndexRoundTrip(hs: seq<Handle>)
    requires AscendingHandles(hs)
    ensures ParsedIndex(EncodeIndex(hs)) == Ok(hs) <==> AllHandlesOk(hs)
  {
    if AllHandlesOk(hs) {
      assert IsIndex(EncodeIndex(hs), hs);
      var found := ParsedIndex(EncodeIndex(hs)).value;
      HandlesPrefixFree();
      ConcatUnique(EncodeHandle, HandleOk, hs, found);
      ConcatUnique(EncodeHandle, HandleOk, found, hs);
      assert found == hs[..|found|] == hs;
    }
  }

  lemma HandlesSnoc(hs: seq<Handle>, h: Handle)
    requires AscendingHandles(hs) && (hs != [] ==> Less(hs[|hs| - 1].lastKey, h.lastKey))
    ensures AscendingHandles(hs + [h])
  {
    hide Less;
    forall i | 0 <= i < |hs| ensures Less(hs[i].lastKey, h.lastKey) {
      if i < |hs| - 1 { LessTransitive(hs[i].lastKey, hs[|hs| - 1].lastKey, h.lastKey); }
    }
  }

  method ParseIndex(bytes: seq<byte>) returns (r: Result<seq<Handle>>)
    ensures r == ParsedIndex(bytes)
    ensures r.Ok? ==> AllHandlesOk(r.value) && AscendingHandles(r.value) && EncodeIndex(r.value) == bytes
    ensures r.Err? ==> forall hs :: !IsIndex(bytes, hs)
  {
    hide Less, EncodeHandle, DecodeHandle;
    HandlesPrefixFree();
    var handles: seq<Handle>, pos := [], 0;
    var prev: Option<Key> := None;
    while pos < |bytes|
      invariant AllHandlesOk(handles) && AscendingHandles(handles) && pos == |EncodeIndex(handles)| <= |bytes|
      invariant At(bytes, 0, EncodeIndex(handles))
      invariant prev == if handles == [] then None else Some(handles[|handles| - 1].lastKey)
    {
      var item := DecodeHandle(bytes, pos);
      if item.Err? || (prev.Some? && !Less(prev.value, item.value.0.lastKey)) {
        ghost var done := handles;
        forall x: seq<Handle> | IsIndex(bytes, x) ensures false {
          ConcatResume(EncodeHandle, HandleOk, bytes, done, x);
          DecodesHandle(bytes, pos, x[|done|]);
        }
        return Err(Corruption);
      }
      DecodedHandle(bytes, pos);
      ConcatExtend(EncodeHandle, bytes, 0, handles, item.value.0);
      HandlesSnoc(handles, item.value.0);
      prev := Some(item.value.0.lastKey);
      handles := handles + [item.value.0];
      pos := item.value.1;
    }
    assert bytes[0..|bytes|] == bytes;
    IndexRoundTrip(handles);
    return Ok(handles);
  }
}
