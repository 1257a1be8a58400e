/** The stored formats field by field, with every offset and constant written out:
    what a reader that knows only the format description relies on. */
module Formats {
  import opened Bytes
  import opened Records
  import opened Codec
  import opened Wal
  import opened RunFormat
  import opened Checksum
  import opened RunLayout
  import opened SsTables

  /** Key length, key, tag, value length, value. */
  lemma EntryLayout(e: Entry)
    ensures var s, k := EncodeEntry(e), |e.key|;
            var value := if e.record.Value? then e.record.value else [];
            && |s| == 9 + k + |value| && s[..4] == Le32(k) && s[4..4 + k] == e.key
            && s[4 + k] == (if e.record.Value? then 0 else 1)
            && s[5 + k..9 + k] == Le32(|value|) && s[9 + k..] == value
  {
    hide Le32;
    var k := |e.key|;
    var rec := EncodeRecord(e.record);
    assert EncodeEntry(e) == (Le32(k) + e.key) + rec;
    assert EncodeEntry(e)[4 + k..] == rec;
  }

  /** Entries follow one another, in order and without gaps. */
  lemma EntriesLayout(es: seq<Entry>, i: nat)
    requires i <= |es|
    ensures i == 0 ==> EncodeAll(es[..i]) == []
    ensures i < |es| ==> var at := |EncodeAll(es[..i])|;
                         && at + |EncodeEntry(es[i])| <= |EncodeAll(es)| && EncodeAll(es)[at..at + |EncodeEntry(es[i])|] == EncodeEntry(es[i])
                         && |EncodeAll(es[..i + 1])| == at + |EncodeEntry(es[i])|
    ensures i == |es| ==> EncodeAll(es[..i]) == EncodeAll(es)
  {
    hide EncodeEntry;
    if i < |es| {
      ConcatItem(EncodeEntry, es, i);
      assert es[..i + 1][..i] == es[..i];
    } else {
      assert es[..i] == es;
    }
  }

  /** A log record: the number of operations, then the operations as entries. */
  lemma RecordLayout(ops: Batch)
    ensures RecordBytes(ops)[..4] == Le32(|ops|) && RecordBytes(ops)[4..] == EncodeAll(ops)
  {
    hide Le32, EncodeAll;
  }

  /** Last key length, last key, block offset, block length, block checksum. */
  lemma HandleLayout(h: Handle)
    ensures var s, k := EncodeHandle(h), |h.lastKey|;
            && |s| == 20 + k && s[..4] == Le32(k) && s[4..4 + k] == h.lastKey
            && s[4 + k..12 + k] == Le64(h.offset) && s[12 + k..16 + k] == Le32(h.len) && s[16 + k..] == Le32(h.crc)
  {
    hide Le32, Le64;
    var k := |h.lastKey|;
    var extent := EncodeExtent(h);
    assert EncodeHandle(h) == (Le32(k) + h.lastKey) + extent;
    assert EncodeHandle(h)[4 + k..] == extent;
    assert extent[..8] == Le64(h.offset) && extent[8..12] == Le32(h.len) && extent[12..] == Le32(h.crc);
  }

  /** Entry count, index offset, index length, index checksum, magic. */
  lemma FooterLayout(count: nat, off: nat, index: seq<byte>)
    ensures var f := Footer(count, off, index);
            && |f| == 36 && f[0..8] == Le64(count) && f[8..16] == Le64(off) && f[16..24] == Le64(|index|)
            && f[24..28] == Le32(Crc32c(index)) && f[28..36] == [0x4C, 0x53, 0x4D, 0x54, 0x42, 0x4C, 0x30, 0x31]
  {
    hide Footer;
    FooterNumbers(count, off, index);
    FooterEnd(count, off, index);
  }

  /** Magic, blocks, index, footer: the blocks tile the file from offset 8 to the
      index, the index has a handle for each, and the footer counts the entries. */
  lemma RunFileLayout(es: seq<Entry>)
    ensures var file, hs := FileOf(es), Handles(Blocks(es));
            var off := |file| - 36 - |EncodeIndex(hs)|;
            && off >= 8 && file[..8] == [0x4C, 0x53, 0x4D, 0x54, 0x42, 0x4C, 0x30, 0x31]
            && file[off..|file| - 36] == EncodeIndex(hs) && file[|file| - 36..] == Footer(|es|, off, EncodeIndex(hs))
            && (hs == [] ==> off == 8) && (hs != [] ==> hs[0].offset == 8 && hs[|hs| - 1].offset + hs[|hs| - 1].len == off)
            && forall i :: 0 <= i < |hs| - 1 ==> hs[i + 1].offset == hs[i].offset + hs[i].len
  {
    hide Footer, Crc32c, EncodeIndex, Blocks, EncodeAll, HandleOf;
    var bs := Blocks(es);
    var data, index := Data(bs), EncodeIndex(Handles(bs));
    Assembled(data, index, |es|);
    assert FileOf(es)[..8] == MAGIC;
    if bs == [] { assert Data(bs) == []; } else { BlockPlace(bs, 0); BlockPlace(bs, |bs| - 1); }
    forall i | 0 <= i < |bs| - 1 ensures HandleOf(bs, i + 1).offset == HandleOf(bs, i).offset + HandleOf(bs, i).len { BlockPlace(bs, i); }
  }

  /** The block of a handle: its bytes, its last key and its checksum. */
  lemma BlockLayout(es: seq<Entry>, i: nat)
    requires i < |Blocks(es)|
    ensures var h, block := Handles(Blocks(es))[i], Blocks(es)[i];
            && block != [] && h.lastKey == block[|block| - 1].key && h.len == |EncodeAll(block)| && h.crc == Crc32c(EncodeAll(block))
            && h.offset + h.len <= |FileOf(es)| && FileOf(es)[h.offset..h.offset + h.len] == EncodeAll(block)
  {
    hide Footer, Crc32c, EncodeIndex, Blocks, EncodeAll;
    var bs := Blocks(es);
    BlocksNonempty(es);
    BlockPlace(bs, i);
    var h := HandleOf(bs, i);
    FileHoldsAll(es);
    DataInFile(Data(bs), EncodeIndex(Handles(bs)), |es|, h.offset - 8, h.offset - 8 + h.len);
  }

  /** A block is closed by the entry that brings it to 4096 bytes. */
  lemma BlockSizes(es: seq<Entry>, i: nat)
    requires i < |Blocks(es)|
    ensures var block := Blocks(es)[i];
            && block != [] && |EncodeAll(block[..|block| - 1])| < 4096 && (i < |Blocks(es)| - 1 ==> |EncodeAll(block)| >= 4096)
  {
    hide Blocks, EncodeAll;
    BlocksNonempty(es);
  }

  /** The limits with the cap written out: a run reads back, and so does a log record,
      exactly if every key and value is at most 2^30 bytes long and, for the record,
      the number of operations fits 32 bits. */
  lemma LimitsWrittenOut(es: seq<Entry>, ops: Batch)
    requires Ascending(es) && |FileOf(es)| < U64
    ensures ReadsBack(FileOf(es), es) <==>
            forall i :: 0 <= i < |es| ==> |es[i].key| <= 1073741824 && (es[i].record.Value? ==> |es[i].record.value| <= 1073741824)
    ensures Decoded(RecordBytes(ops)) == Ok(ops) <==>
            |ops| < 4294967296 && forall i :: 0 <= i < |ops| ==> |ops[i].key| <= 1073741824 && (ops[i].record.Value? ==> |ops[i].record.value| <= 1073741824)
  {
    hide ReadsBack, FileOf, RecordBytes, Decoded;
    ReadBackExactly(es);
    RecordRoundTrip(ops);
    assert forall e: Entry :: Small(e) <==> |e.key| <= 1073741824 && (e.record.Value? ==> |e.record.value| <= 1073741824);
  }
}
