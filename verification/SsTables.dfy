/** Sorted runs: the streaming writer, the open table and its point lookup. */
module SsTables {
  import opened Bytes
  import opened Records
  import opened Codec
  import opened RunFormat
  import opened Checksum
  import opened RunLayout
  import opened Cache

  // -------------------------------------------------------------------- writer

  /** The lengths a writer can record for the next entry of a run. */
  predicate Pushable(pushed: seq<Entry>, e: Entry) {
    |e.key| < U32 && e.record.ValueLen() < U32 && |EncodeAll(Cut(pushed).open + [e])| < U32
  }

  class SsTableWriter {
    var out: seq<byte>
    var offset: nat
    var blockBuf: seq<byte>
    var blockLastKey: Key
    var index: seq<Handle>
    var entryCount: nat
    ghost var pushed: seq<Entry>

    /** Closed blocks are in the file with their handles; the open one is buffered. */
    ghost predicate Holds(closed: seq<seq<Entry>>, open: seq<Entry>)
      reads this
    {
      && out == MAGIC + Data(closed) && offset == |out| && index == Handles(closed)
      && blockBuf == EncodeAll(open) && (open != [] ==> blockLastKey == open[|open| - 1].key)
    }

    ghost predicate Valid()
      reads this
    {
      Holds(Cut(pushed).closed, Cut(pushed).open) && entryCount == |pushed|
    }

    constructor ()
      ensures Valid() && pushed == []
    {
      out := MAGIC;
      offset := |MAGIC|;
      blockBuf, blockLastKey, index, entryCount := [], [], [], 0;
      pushed := [];
    }

    /** Write the buffered block and record where it lies. */
    method FlushBlock() returns (r: Result<()>)
      requires offset == |out|
      modifies this
      ensures pushed == old(pushed) && entryCount == old(entryCount)
      ensures r.Ok? <==> |old(blockBuf)| < U32
      ensures r.Ok? && old(blockBuf) == [] ==> out == old(out) && offset == old(offset) && index == old(index)
                                               && blockBuf == [] && blockLastKey == old(blockLastKey)
      ensures r.Ok? && old(blockBuf) != [] ==>
        && out == old(out) + old(blockBuf) && offset == |out| && blockBuf == [] && blockLastKey == []
        && index == old(index) + [Handle(old(blockLastKey), old(offset), |old(blockBuf)|, Crc32c(old(blockBuf)))]
    {
      if blockBuf == [] {
        return Ok(());
      }
      var crc := Crc32c(blockBuf);
      if |blockBuf| >= U32 {
        return Err(Corruption);
      }
      out := out + blockBuf;
      index := index + [Handle(blockLastKey, offset, |blockBuf|, crc)];
      offset := offset + |blockBuf|;
      blockBuf, blockLastKey := [], [];
      r := Ok(());
    }

    /** Append one entry, closing the block when it reaches the target size. */
    method Push(e: Entry) returns (r: Result<()>)
      requires Valid()
      modifies this
      ensures r.Ok? <==> Pushable(old(pushed), e)
      ensures r.Ok? ==> Valid() && pushed == old(pushed) + [e]
    {
      hide Data, Handles, EncodeAll, EncodeEntry, Crc32c, Cut;
      ghost var c, block := Cut(pushed), Cut(pushed).open + [e];
      PushCut(pushed, e);
      if |e.key| >= U32 || e.record.ValueLen() >= U32 {
        return Err(Corruption);
      }
      blockBuf := blockBuf + EncodeEntry(e);
      blockLastKey := e.key;
      entryCount := entryCount + 1;
      pushed := pushed + [e];
      if |blockBuf| >= TARGET_BLOCK_SIZE {
        BlockClosed(c.closed, block);
        EmptyBlock([]);
        r := FlushBlock();
      } else {
        r := Ok(());
      }
    }

    /** Flush the last block, then write the index and the footer. */
    method Finish() returns (r: Result<seq<byte>>)
      requires Valid()
      modifies this
      ensures r == Ok(FileOf(pushed)) && pushed == old(pushed)
    {
      hide Data, Handles, Crc32c, HandleOf, EncodeHandle, Cut, EncodeAll, EncodeIndex, Footer;
      ghost var c := Cut(pushed);
      CutSound(pushed);
      EmptyBlock(c.open);
      var last := FlushBlock();
      if c.open != [] { BlockClosed(c.closed, c.open); }
      assert out == MAGIC + Data(AllBlocks(c)) && index == Handles(AllBlocks(c)) && offset == |out|;
      var indexOffset := offset;
      var indexBytes := EncodeHandles(index);
      out := out + indexBytes + Footer(entryCount, indexOffset, indexBytes);
      r := Ok(out);
      assert out == Assemble(Data(AllBlocks(c)), indexBytes, |pushed|);
    }
  }

  lemma EmptyBlock(open: seq<Entry>)
    ensures EncodeAll(open) == [] <==> open == []
  {
  }

  lemma PushCut(pushed: seq<Entry>, e: Entry)
    ensures Cut(pushed + [e]) == CutNext(Cut(pushed), e)
    ensures EncodeAll(Cut(pushed).open + [e]) == EncodeAll(Cut(pushed).open) + EncodeEntry(e)
  {
    assert (pushed + [e])[..|pushed|] == pushed;
    ConcatAppend(EncodeEntry, Cut(pushed).open, [e]);
    ConcatOne(EncodeEntry, e);
  }

  /** Appending a block's bytes and its handle keeps file and index in step. */
  lemma BlockClosed(closed: seq<seq<Entry>>, block: seq<Entry>)
    requires block != []
    ensures MAGIC + Data(closed + [block]) == (MAGIC + Data(closed)) + EncodeAll(block)
    ensures Handles(closed + [block]) == Handles(closed)
      + [Handle(block[|block| - 1].key, |MAGIC + Data(closed)|, |EncodeAll(block)|, Crc32c(EncodeAll(block)))]
  {
    hide Crc32c, EncodeAll;
    HandlesSnocBlock(closed, block);
  }

  /** The index bytes, one handle after another. */
  method EncodeHandles(index: seq<Handle>) returns (bytes: seq<byte>)
    ensures bytes == EncodeIndex(index)
  {
    hide EncodeHandle;
    bytes := [];
    for i := 0 to |index|
      invariant bytes == EncodeIndex(index[..i])
    {
      assert index[..i + 1][..i] == index[..i];
      bytes := bytes + EncodeHandle(index[i]);
    }
    assert index[..|index|] == index;
  }

  // -------------------------------------------------------------------- reader

  /** An open run: its file and its parsed index. */
  datatype SsTable = SsTable(file: seq<byte>, index: seq<Handle>, entryCount: nat)

  /** The footer's fields, when the footer is there and names an index that ends
      where the footer starts. */
  datatype FooterFields = FooterFields(entryCount: nat, indexOffset: nat, indexLen: nat, indexCrc: nat)

  function ReadFooter(file: seq<byte>): (r: Result<FooterFields>)
    ensures r.Ok? ==> 8 <= r.value.indexOffset && r.value.indexOffset + r.value.indexLen == |file| - FOOTER_SIZE
  {
    if |file| < |MAGIC| + FOOTER_SIZE then Err(Corruption)
    else
      var at := |file| - FOOTER_SIZE;
      if file[at + 28..at + 36] != MAGIC then Err(Corruption)
      else
        var f := FooterFields(U64Of(file[at..at + 8]), U64Of(file[at + 8..at + 16]), U64Of(file[at + 16..at + 24]), U32Of(file[at + 24..at + 28]));
        if f.indexOffset < |MAGIC| || f.indexOffset + f.indexLen != at then Err(Corruption) else Ok(f)
  }

  /** What opening a file yields. */
  ghost function Opened(file: seq<byte>): Result<SsTable> {
    var f :- ReadFooter(file);
    var bytes := file[f.indexOffset..f.indexOffset + f.indexLen];
    if Crc32c(bytes) != f.indexCrc then Err(Corruption)
    else
      var index :- ParsedIndex(bytes);
      Ok(SsTable(file, index, f.entryCount))
  }

  /** What a file accepted as a run ends in: a footer that ends in the magic bytes
      and names an index right before it, whose checksum matches and whose bytes
      are an index. */
  ghost predicate EndsInIndex(file: seq<byte>, hs: seq<Handle>, count: nat) {
    && |file| >= 44
    && var at := |file| - 36;
       && file[at + 28..] == [0x4C, 0x53, 0x4D, 0x54, 0x42, 0x4C, 0x30, 0x31] && count == FromLittleEndian(file[at..at + 8])
       && var off, len := FromLittleEndian(file[at + 8..at + 16]), FromLittleEndian(file[at + 16..at + 24]);
          && off >= 8 && off + len == at && Crc32c(file[off..at]) == FromLittleEndian(file[at + 24..at + 28])
          && AllHandlesOk(hs) && AscendingHandles(hs) && EncodeIndex(hs) == file[off..at]
  }

  /** Exactly the files that end in an index open, and to that index. */
  lemma OpensExactly(file: seq<byte>, hs: seq<Handle>, count: nat)
    ensures Opened(file) == Ok(SsTable(file, hs, count)) <==> EndsInIndex(file, hs, count)
  {
    hide Crc32c, EncodeIndex, FromLittleEndian, ParsedIndex;
    if |file| >= 44 {
      var at := |file| - 36;
      assert file[at + 28..] == file[at + 28..at + 36];
      var off := FromLittleEndian(file[at + 8..at + 16]);
      if 8 <= off <= at {
        IndexIs(file[off..at], hs);
      }
    }
  }

  lemma IndexIs(bytes: seq<byte>, hs: seq<Handle>)
    ensures ParsedIndex(bytes) == Ok(hs) <==> AllHandlesOk(hs) && AscendingHandles(hs) && EncodeIndex(hs) == bytes
  {
    hide EncodeIndex;
    if AllHandlesOk(hs) && AscendingHandles(hs) && EncodeIndex(hs) == bytes { IndexRoundTrip(hs); }
  }

  method Open(file: seq<byte>) returns (r: Result<SsTable>)
    ensures r == Opened(file)
    ensures r.Ok? <==> exists hs, count :: EndsInIndex(file, hs, count)
    ensures r.Ok? ==> r.value.file == file && EndsInIndex(file, r.value.index, r.value.entryCount)
    ensures r.Ok? ==> AscendingHandles(r.value.index)
  {
    hide Crc32c, ParsedIndex, ReadFooter, EndsInIndex;
    forall hs, count ensures EndsInIndex(file, hs, count) <==> Opened(file) == Ok(SsTable(file, hs, count)) { OpensExactly(file, hs, count); }
    var f := ReadFooter(file);
    if f.Err? {
      return Err(f.error);
    }
    var bytes := file[f.value.indexOffset..f.value.indexOffset + f.value.indexLen];
    if Crc32c(bytes) != f.value.indexCrc {
      return Err(Corruption);
    }
    var index := ParseIndex(bytes);
    if index.Err? {
      return Err(index.error);
    }
    r := Ok(SsTable(file, index.value, f.value.entryCount));
  }

  /** Block `i`: read where its handle says, checksum, parse. */
  ghost function BlockAt(t: SsTable, i: nat): Result<DecodedBlock>
    requires i < |t.index|
  {
    var h := t.index[i];
    if h.offset + h.len > |t.file| then Err(Io)
    else
      var bytes := t.file[h.offset..h.offset + h.len];
      if Crc32c(bytes) != h.crc then Err(Corruption) else ParsedBlock(bytes)
  }

  /** Block `i` is there, matches its checksum and holds `es`. */
  ghost predicate Intact(t: SsTable, i: nat, es: seq<Entry>) {
    && i < |t.index|
    && var h := t.index[i];
       && h.offset + h.len <= |t.file| && Crc32c(t.file[h.offset..h.offset + h.len]) == h.crc
       && AllSmall(es) && Ascending(es) && EncodeAll(es) == t.file[h.offset..h.offset + h.len]
  }

  /** Exactly the intact blocks are read, and as what they hold. */
  lemma ReadsIntact(t: SsTable, i: nat, es: seq<Entry>)
    requires i < |t.index|
    ensures BlockAt(t, i) == Ok(es) <==> Intact(t, i, es)
  {
    hide Crc32c, EncodeAll;
    if Intact(t, i, es) { BlockRoundTrip(es); }
  }

  method DecodeBlockAt(t: SsTable, i: nat) returns (r: Result<DecodedBlock>)
    requires i < |t.index|
    ensures r == BlockAt(t, i)
    ensures r.Ok? ==> var h := t.index[i];
                      h.offset + h.len <= |t.file| && Crc32c(t.file[h.offset..h.offset + h.len]) == h.crc
    ensures r.Ok? ==> Intact(t, i, r.value)
    ensures r.Err? ==> forall es :: !Intact(t, i, es)
  {
    hide Crc32c, ParsedBlock, EncodeAll;
    forall es ensures Intact(t, i, es) <==> BlockAt(t, i) == Ok(es) { ReadsIntact(t, i, es); }
    var h := t.index[i];
    if h.offset + h.len > |t.file| {
      return Err(Io);
    }
    var bytes := t.file[h.offset..h.offset + h.len];
    if Crc32c(bytes) != h.crc {
      return Err(Corruption);
    }
    r := DecodeBlock(bytes);
  }

  // ------------------------------------------------------- what was written

  /** `t` is the open table of the run holding exactly `es`. */
  ghost predicate TableFor(t: SsTable, es: seq<Entry>) {
    && Ascending(es) && AllSmall(es)
    && t.file == FileOf(es) && t.index == Handles(Blocks(es)) && t.entryCount == |es|
  }

  lemma Slice(s: seq<byte>, at: nat, i: nat, j: nat)
    requires at <= |s| && i <= j && at + j <= |s|
    ensures s[at + i..at + j] == s[at..][i..j]
  {
  }

  /** The numbers of a footer. */
  lemma FooterNumbers(count: nat, off: nat, index: seq<byte>)
    ensures var f := Footer(count, off, index);
            f[0..8] == Le64(count) && f[8..16] == Le64(off) && f[16..24] == Le64(|index|)
  {
    hide Le32, Le64, Crc32c;
  }

  lemma FooterEnd(count: nat, off: nat, index: seq<byte>)
    ensures var f := Footer(count, off, index);
            f[24..28] == Le32(Crc32c(index)) && f[28..36] == MAGIC
  {
    hide Le32, Le64, Crc32c;
    var head := Le64(count) + (Le64(off) + Le64(|index|));
    assert Footer(count, off, index) == head + (Le32(Crc32c(index)) + MAGIC);
  }

  lemma Assembled(data: seq<byte>, index: seq<byte>, count: nat)
    ensures var file, at := Assemble(data, index, count), 8 + |data| + |index|;
            && |file| == at + FOOTER_SIZE && file[at..] == Footer(count, 8 + |data|, index)
            && file[8 + |data|..at] == index
  {
    hide Footer;
    assert Assemble(data, index, count) == (MAGIC + data + index) + Footer(count, 8 + |data|, index);
    assert MAGIC + data + index == (MAGIC + data) + index;
  }

  /** The data lies behind the magic bytes. */
  lemma DataInFile(data: seq<byte>, index: seq<byte>, count: nat, a: nat, b: nat)
    requires a <= b <= |data|
    ensures 8 + b <= |Assemble(data, index, count)| && Assemble(data, index, count)[8 + a..8 + b] == data[a..b]
  {
    hide Footer;
    var rest := index + Footer(count, 8 + |data|, index);
    assert Assemble(data, index, count) == MAGIC + (data + rest);
    assert (MAGIC + (data + rest))[8..] == data + rest;
    Slice(MAGIC + (data + rest), 8, a, b);
  }

  lemma FooterReads(data: seq<byte>, index: seq<byte>, count: nat)
    requires count < U64 && |Assemble(data, index, count)| < U64
    ensures ReadFooter(Assemble(data, index, count)) == Ok(FooterFields(count, 8 + |data|, |index|, Crc32c(index)))
    ensures Assemble(data, index, count)[8 + |data|..8 + |data| + |index|] == index
  {
    hide Le32, Le64, U32Of, U64Of, Crc32c, Footer, Assemble;
    var file, off := Assemble(data, index, count), 8 + |data|;
    var at := off + |index|;
    Assembled(data, index, count);
    Slice(file, at, 0, 8); Slice(file, at, 8, 16); Slice(file, at, 16, 24); Slice(file, at, 24, 28); Slice(file, at, 28, 36);
    FooterNumbers(count, off, index);
    FooterEnd(count, off, index);
    Le64RoundTrip(count); Le64RoundTrip(off); Le64RoundTrip(|index|); Le32RoundTrip(Crc32c(index));
  }

  /** Opening a written run succeeds and recovers its index. */
  lemma WrittenRunOpens(es: seq<Entry>)
    requires Ascending(es) && AllSmall(es) && |FileOf(es)| < U64
    ensures Opened(FileOf(es)) == Ok(SsTable(FileOf(es), Handles(Blocks(es)), |es|))
    ensures TableFor(Opened(FileOf(es)).value, es)
  {
    hide Crc32c, ReadFooter, Blocks, Handles, EncodeIndex, ParsedIndex, EncodeAll;
    var bs := Blocks(es);
    BlocksAreOk(es);
    FileHoldsAll(es);
    HandlesAreOk(bs);
    IndexRoundTrip(Handles(bs));
    FooterReads(Data(bs), EncodeIndex(Handles(bs)), |es|);
  }

  /** A run file is at least as long as its data, and longer than its entry count. */
  lemma FileHoldsAll(es: seq<Entry>)
    ensures |FileOf(es)| >= 8 + |Data(Blocks(es))| + FOOTER_SIZE
    ensures |es| < |FileOf(es)|
  {
    hide Crc32c, Blocks, EncodeIndex, Footer, EncodeAll, Data;
    BlocksNonempty(es);
    DataCounts(Blocks(es));
  }

  lemma {:induction false} DataCounts(bs: seq<seq<Entry>>)
    ensures |Flatten(bs)| <= |Data(bs)|
  {
    if bs != [] {
      var n := |bs| - 1;
      DataCounts(bs[..n]);
      EntriesCount(bs[n]);
    }
  }

  lemma {:induction false} EntriesCount(es: seq<Entry>)
    ensures |es| <= |EncodeAll(es)|
  {
    if es != [] { EntriesCount(es[..|es| - 1]); }
  }

  /** Every block of a written run decodes to the entries that went into it. */
  lemma WrittenBlock(t: SsTable, es: seq<Entry>, i: nat)
    requires TableFor(t, es) && i < |t.index|
    ensures |t.index| == |Blocks(es)| && BlockAt(t, i) == Ok(Blocks(es)[i])
  {
    hide Crc32c, Blocks, EncodeIndex, Footer, EncodeAll, ParsedBlock;
    var bs := Blocks(es);
    BlocksAreOk(es);
    BlockPlace(bs, i);
    var h := HandleOf(bs, i);
    DataInFile(Data(bs), EncodeIndex(Handles(bs)), |es|, h.offset - 8, h.offset - 8 + h.len);
    BlockRoundTrip(bs[i]);
  }

  /** Reading every block back gives the written entries. */
  ghost predicate ReadsBack(file: seq<byte>, es: seq<Entry>) {
    Opened(file).Ok? &&
    var t := Opened(file).value;
    exists bs: seq<DecodedBlock> ::
      && |bs| == |t.index| && Flatten(bs) == es
      && forall i :: 0 <= i < |bs| ==> BlockAt(t, i) == Ok(bs[i])
  }

  /** The writer accepts lengths up to 32 bits but the readers cap them at 2^30:
      a written run can be read back exactly when every length is within the cap. */
  lemma ReadBackExactly(es: seq<Entry>)
    requires Ascending(es) && |FileOf(es)| < U64
    ensures ReadsBack(FileOf(es), es) <==> AllSmall(es)
  {
    hide Opened, BlockAt, Blocks, Flatten, FileOf;
    if AllSmall(es) {
      WrittenRunOpens(es);
      BlocksAreOk(es);
      var t := Opened(FileOf(es)).value;
      forall i | 0 <= i < |Blocks(es)| ensures BlockAt(t, i) == Ok(Blocks(es)[i]) {
        WrittenBlock(t, es, i);
      }
      assert |Blocks(es)| == |t.index| && Flatten(Blocks(es)) == es;
    } else if ReadsBack(FileOf(es), es) {
      OnlySmallReadsBack(FileOf(es), es);
    }
  }

  lemma OnlySmallReadsBack(file: seq<byte>, es: seq<Entry>)
    requires ReadsBack(file, es)
    ensures AllSmall(es)
  {
    hide Flatten, Opened, Crc32c;
    var t := Opened(file).value;
    var bs: seq<DecodedBlock> :| |bs| == |t.index| && Flatten(bs) == es && forall i :: 0 <= i < |bs| ==> BlockAt(t, i) == Ok(bs[i]);
    forall i | 0 <= i < |bs| ensures AllSmall(bs[i]) { }
    FlattenSmall(bs);
  }

  lemma {:induction false} FlattenSmall(bs: seq<seq<Entry>>)
    requires forall i :: 0 <= i < |bs| ==> AllSmall(bs[i])
    ensures AllSmall(Flatten(bs))
  {
    if bs != [] { FlattenSmall(bs[..|bs| - 1]); }
  }

  // -------------------------------------------------------------------- lookup

  /** The first block whose last key is not below `key`, by binary search. */
  method PartitionPoint(index: seq<Handle>, key: Key) returns (p: nat)
    requires AscendingHandles(index)
    ensures p <= |index|
    ensures forall i :: 0 <= i < p ==> Less(index[i].lastKey, key)
    ensures forall i :: p <= i < |index| ==> !Less(index[i].lastKey, key)
  {
    hide Less;
    var lo, hi := 0, |index|;
    while lo < hi
      invariant 0 <= lo <= hi <= |index|
      invariant forall i :: 0 <= i < lo ==> Less(index[i].lastKey, key)
      invariant forall i :: hi <= i < |index| ==> !Less(index[i].lastKey, key)
    {
      var mid := (lo + hi) / 2;
      if Less(index[mid].lastKey, key) {
        forall i | 0 <= i < mid ensures Less(index[i].lastKey, key) { LessTransitive(index[i].lastKey, index[mid].lastKey, key); }
        lo := mid + 1;
      } else {
        forall i | mid < i < |index| ensures !Less(index[i].lastKey, key) {
          if Less(index[i].lastKey, key) { LessTransitive(index[mid].lastKey, index[i].lastKey, key); }
        }
        hi := mid;
      }
    }
    p := lo;
  }

  /** The candidate block is the only one that can hold the key. */
  lemma CandidateDecides(t: SsTable, es: seq<Entry>, key: Key, p: nat)
    requires TableFor(t, es) && p <= |t.index|
    requires forall i :: 0 <= i < p ==> Less(t.index[i].lastKey, key)
    requires forall i :: p <= i < |t.index| ==> !Less(t.index[i].lastKey, key)
    ensures |t.index| == |Blocks(es)|
    ensures Find(es, key) == if p == |t.index| then None else Find(Blocks(es)[p], key)
  {
    hide Less, Blocks, EncodeAll, EncodeIndex, Find, Flatten, Lacks;
    var bs: seq<seq<Entry>> := Blocks(es);
    BlocksAreOk(es);
    forall i | 0 <= i < |bs| ensures t.index[i].lastKey == bs[i][|bs[i]| - 1].key { }
    BlocksBelow(es, bs, p, key);
    FindNone(Flatten(bs[..p]), key);
    if p < |bs| {
      FlattenAt(bs, p);
      var rest := Flatten(bs[p + 1..]);
      BlocksAbove(es, bs, p, key);
      FindNone(rest, key);
      FindAppend(bs[p], rest, key);
      FindAppend(Flatten(bs[..p]), bs[p] + rest, key);
    } else {
      assert bs[..p] == bs;
    }
  }

  lemma {:induction false} FindAppend(a: seq<Entry>, b: seq<Entry>, key: Key)
    ensures Find(a + b, key) == if Find(a, key).Some? then Find(a, key) else Find(b, key)
  {
    if a == [] {
      assert a + b == b;
    } else {
      assert (a + b)[1..] == a[1..] + b;
      FindAppend(a[1..], b, key);
    }
  }

  predicate Lacks(s: seq<Entry>, key: Key) {
    forall i :: 0 <= i < |s| ==> s[i].key != key
  }

  lemma {:induction false} FindNone(s: seq<Entry>, key: Key)
    requires Lacks(s, key)
    ensures Find(s, key).None?
  {
    if s != [] { FindNone(s[1..], key); }
  }

  lemma {:induction false} FlattenFrom(bs: seq<seq<Entry>>, e: Entry) returns (i: nat, j: nat)
    requires e in Flatten(bs)
    ensures i < |bs| && j < |bs[i]| && bs[i][j] == e
  {
    var n := |bs| - 1;
    if e in bs[n] {
      i := n;
      j :| 0 <= j < |bs[n]| && bs[n][j] == e;
    } else {
      i, j := FlattenFrom(bs[..n], e);
    }
  }

  /** Keys of blocks whose last key is below `key` are below it. */
  lemma BlocksBelow(es: seq<Entry>, bs: seq<seq<Entry>>, p: nat, key: Key)
    requires Ascending(es) && BlocksOk(bs) && Flatten(bs) == es && p <= |bs|
    requires forall i :: 0 <= i < p ==> Less(bs[i][|bs[i]| - 1].key, key)
    ensures Lacks(Flatten(bs[..p]), key)
  {
    hide Less, Flatten;
    var before := Flatten(bs[..p]);
    forall k | 0 <= k < |before| ensures before[k].key != key {
      var i, j := FlattenFrom(bs[..p], before[k]);
      var last := |bs[i]| - 1;
      if j < last { LessTransitive(bs[i][j].key, bs[i][last].key, key); }
      LessAsymmetric(bs[i][j].key, key);
    }
  }

  /** Keys of blocks after the candidate are above `key`. */
  lemma BlocksAbove(es: seq<Entry>, bs: seq<seq<Entry>>, p: nat, key: Key)
    requires Ascending(es) && BlocksOk(bs) && Flatten(bs) == es && p < |bs|
    requires !Less(bs[p][|bs[p]| - 1].key, key)
    ensures Lacks(Flatten(bs[p + 1..]), key)
  {
    hide Less, Flatten;
    var rest := Flatten(bs[p + 1..]);
    forall k | 0 <= k < |rest| ensures rest[k].key != key {
      var i, j := FlattenFrom(bs[p + 1..], rest[k]);
      BlocksApart(es, bs, p, p + 1 + i, |bs[p]| - 1, j);
    }
  }

  /** What a run's cached blocks must be: block `i` of run `id`. */
  ghost predicate TruthOf(truth: Truth, id: nat, t: SsTable) {
    forall i :: 0 <= i < |t.index| ==> truth(BlockKey(id, i % U32)) == BlockOption(t, i)
  }

  ghost function BlockOption(t: SsTable, i: nat): Option<DecodedBlock>
    requires i < |t.index|
  {
    if BlockAt(t, i).Ok? then Some(BlockAt(t, i).value) else None
  }

  /** Block `i` from the cache if it is there, else decoded and remembered. */
  method CachedBlock(t: SsTable, id: nat, i: nat, cache: BlockCache, ghost truth: Truth) returns (r: Result<DecodedBlock>)
    requires i < |t.index| && cache.Valid() && cache.Coherent(truth) && TruthOf(truth, id, t)
    modifies cache.Footprint()
    ensures cache.Valid() && cache.Coherent(truth)
    ensures r == BlockAt(t, i)
    ensures r.Ok? ==> var h := t.index[i];
                      h.offset + h.len <= |t.file| && Crc32c(t.file[h.offset..h.offset + h.len]) == h.crc
    ensures r.Ok? ==> Intact(t, i, r.value)
    ensures r.Err? ==> forall es :: !Intact(t, i, es)
    ensures r.Ok? && cache.enabled ==> BlockKey(id, i % U32) in cache.Held(ShardOf(BlockKey(id, i % U32)))
  {
    hide BlockAt, Crc32c, EncodeAll, BlockCache.Valid, BlockCache.Coherent, ShardOf;
    forall es ensures Intact(t, i, es) <==> BlockAt(t, i) == Ok(es) { ReadsIntact(t, i, es); }
    var key := BlockKey(id, i % U32);
    var hit := cache.Get(key, truth);
    if hit.Some? {
      return Ok(hit.value);
    }
    r := DecodeBlockAt(t, i);
    if r.Ok? {
      cache.Insert(key, r.value, truth);
    }
  }

  /** The one block of a file, whatever it holds, that may have the key. */
  predicate Candidate(t: SsTable, key: Key, p: nat) {
    && p <= |t.index| && (forall i :: 0 <= i < p ==> Less(t.index[i].lastKey, key))
    && forall i :: p <= i < |t.index| ==> !Less(t.index[i].lastKey, key)
  }

  /** The answer is that of the candidate block if it is intact, and an error if it
      is not; past the last block there is nothing. */
  ghost predicate AnswersFrom(t: SsTable, key: Key, p: nat, r: Result<Option<Record>>) {
    if p >= |t.index| then r == Ok(None)
    else if r.Ok? then exists es :: Intact(t, p, es) && r.value == Find(es, key)
    else forall es :: !Intact(t, p, es)
  }

  /** Point lookup: one candidate block, scanned. On a written run it is linear
      search of the entries; on any file it answers from that block if the block is
      intact, and with an error exactly if it is not. */
  method Lookup(t: SsTable, id: nat, key: Key, cache: BlockCache, ghost truth: Truth) returns (r: Result<Option<Record>>)
    requires AscendingHandles(t.index) && cache.Valid() && cache.Coherent(truth) && TruthOf(truth, id, t)
    modifies cache.Footprint()
    ensures cache.Valid() && cache.Coherent(truth)
    ensures forall es :: TableFor(t, es) ==> r == Ok(Find(es, key))
    ensures exists p :: Candidate(t, key, p) && AnswersFrom(t, key, p, r)
  {
    hide BlockAt, Find, TableFor, Less, Intact, Crc32c, BlockCache.Valid, BlockCache.Coherent;
    var p := PartitionPoint(t.index, key);
    assert Candidate(t, key, p);
    if p >= |t.index| {
      forall es | TableFor(t, es) ensures Find(es, key) == None { CandidateDecides(t, es, key, p); }
      return Ok(None);
    }
    var block := CachedBlock(t, id, p, cache, truth);
    forall es | TableFor(t, es) ensures block.Ok? && Find(es, key) == Find(block.value, key) {
      CandidateDecides(t, es, key, p);
      WrittenBlock(t, es, p);
    }
    if block.Err? {
      return Err(block.error);
    }
    var found := ScanBlock(block.value, key);
    r := Ok(found);
    assert Intact(t, p, block.value) && AnswersFrom(t, key, p, r);
  }

  method ScanBlock(block: DecodedBlock, key: Key) returns (r: Option<Record>)
    ensures r == Find(block, key)
  {
    for i := 0 to |block|
      invariant Find(block, key) == Find(block[i..], key)
    {
      if block[i].key == key {
        return Some(block[i].record);
      }
      assert block[i..][1..] == block[i + 1..];
    }
    r := None;
  }

  // -------------------------------------------------------------------- damage

  /** The files differ, and only within the four bytes or fewer from `a` to `b`. */
  predicate DamagedIn(file: seq<byte>, damaged: seq<byte>, a: nat, b: nat) {
    && |damaged| == |file| && a <= b <= |file| && b - a <= 4
    && damaged[..a] == file[..a] && damaged[b..] == file[b..] && damaged != file
  }

  /** Around any range that contains the damage, the checksum of the range changes. */
  lemma RangeDetects(file: seq<byte>, damaged: seq<byte>, a: nat, b: nat, lo: nat, hi: nat)
    requires DamagedIn(file, damaged, a, b) && lo <= a && b <= hi <= |file|
    ensures Crc32c(damaged[lo..hi]) != Crc32c(file[lo..hi])
  {
    hide Crc32c;
    var s, t := file[lo..hi], damaged[lo..hi];
    assert s[..a - lo] == file[..a][lo..] && t[..a - lo] == damaged[..a][lo..];
    assert s[b - lo..] == file[b..][..hi - b] && t[b - lo..] == damaged[b..][..hi - b];
    if s == t { SameFile(file, damaged, a, b, lo, hi); }
    BurstDetected(s, t, a - lo, b - lo);
  }

  lemma SameFile(file: seq<byte>, damaged: seq<byte>, a: nat, b: nat, lo: nat, hi: nat)
    requires |damaged| == |file| && lo <= a <= b <= hi <= |file|
    requires damaged[..a] == file[..a] && damaged[b..] == file[b..] && damaged[lo..hi] == file[lo..hi]
    ensures damaged == file
  {
    assert file == file[..a][..lo] + file[lo..hi] + file[b..][hi - b..];
    assert damaged == damaged[..a][..lo] + damaged[lo..hi] + damaged[b..][hi - b..];
  }

  /** Outside the damage nothing changes. */
  lemma RangeKept(file: seq<byte>, damaged: seq<byte>, a: nat, b: nat, lo: nat, hi: nat)
    requires DamagedIn(file, damaged, a, b) && lo <= hi <= |file| && (hi <= a || b <= lo)
    ensures damaged[lo..hi] == file[lo..hi]
  {
    if hi <= a {
      assert file[lo..hi] == file[..a][lo..hi] && damaged[lo..hi] == damaged[..a][lo..hi];
    } else {
      Slice(file, b, lo - b, hi - b);
      Slice(damaged, b, lo - b, hi - b);
    }
  }

  /** Opening looks at the index and the footer only. */
  lemma OpensAlike(file: seq<byte>, damaged: seq<byte>, a: nat, b: nat, t: SsTable)
    requires DamagedIn(file, damaged, a, b) && Opened(file) == Ok(t) && t.file == file
    requires |file| >= 44 && ReadFooter(file).Ok? && b <= ReadFooter(file).value.indexOffset
    ensures Opened(damaged) == Ok(t.(file := damaged))
  {
    hide Crc32c, ParsedIndex, ReadFooter, DamagedIn;
    var f := ReadFooter(file).value;
    SameLength(file, damaged, a, b);
    RangeKept(file, damaged, a, b, f.indexOffset, |file| - FOOTER_SIZE);
    FooterKept(file, damaged, a, b);
  }

  /** A written run with damage in one of its blocks still opens, and reading that
      block reports corruption. */
  lemma DamagedBlockIsReported(t: SsTable, es: seq<Entry>, i: nat, damaged: seq<byte>, a: nat, b: nat)
    requires TableFor(t, es) && |FileOf(es)| < U64 && i < |t.index|
    requires DamagedIn(t.file, damaged, a, b) && t.index[i].offset <= a && b <= t.index[i].offset + t.index[i].len
    ensures Opened(damaged) == Ok(t.(file := damaged)) && BlockAt(t.(file := damaged), i) == Err(Corruption)
  {
    hide Crc32c, Blocks, EncodeIndex, Footer, EncodeAll, ParsedBlock, DamagedIn, Opened, ReadFooter, FileOf;
    var bs, h := Blocks(es), t.index[i];
    WrittenRunOpens(es);
    WrittenPlaces(t, es, i);
    RangeDetects(t.file, damaged, a, b, h.offset, h.offset + h.len);
    OpensAlike(t.file, damaged, a, b, t);
    assert |damaged| == |t.file| by { SameLength(t.file, damaged, a, b); }
  }

  lemma SameLength(file: seq<byte>, damaged: seq<byte>, a: nat, b: nat)
    requires DamagedIn(file, damaged, a, b)
    ensures |damaged| == |file|
  {
  }

  /** Where block `i` of a written run lies: before the index, and matching its
      checksum. */
  lemma WrittenPlaces(t: SsTable, es: seq<Entry>, i: nat)
    requires TableFor(t, es) && |FileOf(es)| < U64 && i < |t.index|
    ensures ReadFooter(t.file).Ok? && |t.file| >= 44
    ensures var h := t.index[i];
            && h.offset + h.len <= ReadFooter(t.file).value.indexOffset <= |t.file|
            && Crc32c(t.file[h.offset..h.offset + h.len]) == h.crc
  {
    hide Crc32c, Blocks, EncodeIndex, Footer, EncodeAll, ReadFooter;
    var bs := Blocks(es);
    BlocksAreOk(es);
    BlockPlace(bs, i);
    var h := HandleOf(bs, i);
    FileHoldsAll(es);
    FooterReads(Data(bs), EncodeIndex(Handles(bs)), |es|);
    DataInFile(Data(bs), EncodeIndex(Handles(bs)), |es|, h.offset - 8, h.offset - 8 + h.len);
  }

  /** A written run with damage in its index does not open. */
  lemma DamagedIndexIsReported(es: seq<Entry>, damaged: seq<byte>, a: nat, b: nat)
    requires Ascending(es) && AllSmall(es) && |FileOf(es)| < U64
    requires DamagedIn(FileOf(es), damaged, a, b) && 8 + |Data(Blocks(es))| <= a && b <= |FileOf(es)| - FOOTER_SIZE
    ensures Opened(damaged) == Err(Corruption)
  {
    hide Crc32c, Blocks, EncodeIndex, Footer, EncodeAll, Data, Handles, DamagedIn;
    var file, bs := FileOf(es), Blocks(es);
    var at := |file| - FOOTER_SIZE;
    FileHoldsAll(es);
    FooterReads(Data(bs), EncodeIndex(Handles(bs)), |es|);
    SameLength(file, damaged, a, b);
    RangeDetects(file, damaged, a, b, 8 + |Data(bs)|, at);
    FooterKept(file, damaged, a, b);
  }

  lemma FooterKept(file: seq<byte>, damaged: seq<byte>, a: nat, b: nat)
    requires DamagedIn(file, damaged, a, b) && |file| >= 44 && b <= |file| - FOOTER_SIZE
    ensures ReadFooter(damaged) == ReadFooter(file)
  {
    hide DamagedIn;
    SameLength(file, damaged, a, b);
    var at := |file| - FOOTER_SIZE;
    RangeKept(file, damaged, a, b, at, at + 8);
    RangeKept(file, damaged, a, b, at + 8, at + 16);
    RangeKept(file, damaged, a, b, at + 16, at + 24);
    RangeKept(file, damaged, a, b, at + 24, at + 28);
    RangeKept(file, damaged, a, b, at + 28, at + 36);
  }
}
