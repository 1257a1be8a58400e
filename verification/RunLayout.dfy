/** How a sorted entry list is cut into blocks and laid out in a run file. */
module RunLayout {
  import opened Bytes
  import opened Records
  import opened Codec
  import opened RunFormat
  import opened Checksum

  // ------------------------------------------------------------------- cutting

  /** The writer's blocks: those closed, and the one being filled. */
  datatype Cutting = Cutting(closed: seq<seq<Entry>>, open: seq<Entry>)

  /** Push one entry, then close the block if it has reached the target size. */
  function CutNext(c: Cutting, e: Entry): Cutting {
    var block := c.open + [e];
    if |EncodeAll(block)| >= TARGET_BLOCK_SIZE then Cutting(c.closed + [block], []) else Cutting(c.closed, block)
  }

  function Cut(es: seq<Entry>): Cutting {
    if es == [] then Cutting([], []) else CutNext(Cut(es[..|es| - 1]), es[|es| - 1])
  }

  function AllBlocks(c: Cutting): seq<seq<Entry>> {
    if c.open == [] then c.closed else c.closed + [c.open]
  }

  function Blocks(es: seq<Entry>): seq<seq<Entry>> { AllBlocks(Cut(es)) }

  function Flatten(bs: seq<seq<Entry>>): seq<Entry> {
    if bs == [] then [] else Flatten(bs[..|bs| - 1]) + bs[|bs| - 1]
  }

  /** A closed block has reached the target, and would not have without its last entry. */
  predicate ClosedBlock(b: seq<Entry>) {
    b != [] && |EncodeAll(b)| >= TARGET_BLOCK_SIZE && |EncodeAll(b[..|b| - 1])| < TARGET_BLOCK_SIZE
  }

  predicate CutInv(c: Cutting) {
    && (forall i :: 0 <= i < |c.closed| ==> ClosedBlock(c.closed[i]))
    && |EncodeAll(c.open)| < TARGET_BLOCK_SIZE
  }

  /** Cutting loses nothing and keeps the size bounds: no entry is split, every
      block but the last has at least the target size, and no block has it
      without its last entry. */
  lemma {:induction false} CutSound(es: seq<Entry>)
    ensures CutInv(Cut(es)) && Flatten(AllBlocks(Cut(es))) == es
  {
    hide EncodeAll, Flatten, AllBlocks, CutInv, CutNext;
    if es == [] {
      EmptyCut();
    } else {
      var n := |es| - 1;
      CutSound(es[..n]);
      CutNextSound(Cut(es[..n]), es[n]);
      assert es[..n] + [es[n]] == es;
    }
  }

  lemma EmptyCut()
    ensures CutInv(Cutting([], [])) && Flatten(AllBlocks(Cutting([], []))) == []
  {
    EncodeNone();
  }

  lemma CutNextSound(c: Cutting, e: Entry)
    requires CutInv(c)
    ensures CutInv(CutNext(c, e)) && Flatten(AllBlocks(CutNext(c, e))) == Flatten(AllBlocks(c)) + [e]
  {
    hide EncodeAll, Flatten;
    var block := c.open + [e];
    assert block[..|block| - 1] == c.open;
    FlattenSnoc(c.closed, c.open);
    FlattenSnoc(c.closed, block);
    assert Flatten(c.closed) + block == (Flatten(c.closed) + c.open) + [e];
    if c.open == [] { assert Flatten(c.closed) + c.open == Flatten(c.closed); }
    assert EncodeAll([]) == [] by { EncodeNone(); }
  }

  lemma EncodeNone()
    ensures EncodeAll([]) == []
  {
  }

  lemma FlattenSnoc(bs: seq<seq<Entry>>, b: seq<Entry>)
    ensures Flatten(bs + [b]) == Flatten(bs) + b
  {
    assert (bs + [b])[..|bs|] == bs;
  }

  lemma {:induction false} FlattenAppend(a: seq<seq<Entry>>, b: seq<seq<Entry>>)
    ensures Flatten(a + b) == Flatten(a) + Flatten(b)
  {
    if b == [] {
      assert a + b == a;
    } else {
      var n := |b| - 1;
      assert (a + b)[..|a + b| - 1] == a + b[..n];
      FlattenAppend(a, b[..n]);
    }
  }

  /** A list around its block `i`. */
  lemma FlattenAt(bs: seq<seq<Entry>>, i: nat)
    requires i < |bs|
    ensures Flatten(bs) == Flatten(bs[..i]) + (bs[i] + Flatten(bs[i + 1..]))
  {
    hide Flatten;
    var before, after := bs[..i], bs[i + 1..];
    SplitAround(bs, i);
    FlattenAppend(before, [bs[i]] + after);
    FlattenAppend([bs[i]], after);
    FlattenOne(bs[i]);
  }

  lemma SplitAround<T>(s: seq<T>, i: nat)
    requires i < |s|
    ensures s[..i] + ([s[i]] + s[i + 1..]) == s
  {
  }

  lemma FlattenOne(b: seq<Entry>)
    ensures Flatten([b]) == b
  {
    assert [b][..0] == [];
  }

  lemma {:induction false} FlattenMember(bs: seq<seq<Entry>>, i: nat, j: nat)
    requires i < |bs| && j < |bs[i]|
    ensures bs[i][j] in Flatten(bs)
  {
    FlattenAt(bs, i);
  }

  /** What the blocks of an ascending list of small entries are like. */
  predicate BlocksOk(bs: seq<seq<Entry>>) {
    && (forall i :: 0 <= i < |bs| ==> bs[i] != [] && AllSmall(bs[i]) && Ascending(bs[i]) && |EncodeAll(bs[i])| < U32)
    && (forall i, j :: 0 <= i < j < |bs| ==> Less(bs[i][|bs[i]| - 1].key, bs[j][|bs[j]| - 1].key))
  }

  lemma BlocksNonempty(es: seq<Entry>)
    ensures forall i :: 0 <= i < |Blocks(es)| ==> Blocks(es)[i] != []
    ensures forall i :: 0 <= i < |Blocks(es)| ==> |EncodeAll(Blocks(es)[i][..|Blocks(es)[i]| - 1])| < TARGET_BLOCK_SIZE
    ensures forall i :: 0 <= i < |Blocks(es)| - 1 ==> |EncodeAll(Blocks(es)[i])| >= TARGET_BLOCK_SIZE
    ensures Flatten(Blocks(es)) == es
  {
    hide EncodeAll, Cut, Flatten;
    CutSound(es);
    var c := Cut(es);
    if c.open != [] {
      OpenPrefixSmall(c.open);
    }
  }

  lemma OpenPrefixSmall(open: seq<Entry>)
    requires open != []
    ensures |EncodeAll(open[..|open| - 1])| <= |EncodeAll(open)|
  {
  }

  /** Blocks of an ascending list of small entries: each decodes, each length fits
      the 32-bit field, and the last keys strictly increase. */
  lemma BlocksAreOk(es: seq<Entry>)
    requires Ascending(es) && AllSmall(es)
    ensures BlocksOk(Blocks(es)) && Flatten(Blocks(es)) == es
  {
    hide EncodeAll, Less, Blocks, Flatten;
    var bs := Blocks(es);
    BlocksNonempty(es);
    forall i | 0 <= i < |bs| ensures AllSmall(bs[i]) && Ascending(bs[i]) && |EncodeAll(bs[i])| < U32 {
      BlockOfList(es, bs, i);
      BlockLength(bs[i]);
    }
    forall i, j | 0 <= i < j < |bs| ensures Less(bs[i][|bs[i]| - 1].key, bs[j][|bs[j]| - 1].key) {
      BlocksApart(es, bs, i, j, |bs[i]| - 1, |bs[j]| - 1);
    }
  }

  lemma BlockLength(b: seq<Entry>)
    requires b != [] && AllSmall(b) && |EncodeAll(b[..|b| - 1])| < TARGET_BLOCK_SIZE
    ensures |EncodeAll(b)| < U32
  {
    assert Small(b[|b| - 1]);
    assert EncodeAll(b) == EncodeAll(b[..|b| - 1]) + EncodeEntry(b[|b| - 1]);
  }

  lemma BlockOfList(es: seq<Entry>, bs: seq<seq<Entry>>, i: nat)
    requires Ascending(es) && AllSmall(es) && Flatten(bs) == es && i < |bs|
    ensures AllSmall(bs[i]) && Ascending(bs[i])
  {
    hide Less, Flatten, Small;
    FlattenAt(bs, i);
    var a, b := Flatten(bs[..i]), Flatten(bs[i + 1..]);
    forall j | 0 <= j < |bs[i]| ensures Small(bs[i][j]) { assert es[|a| + j] == bs[i][j]; }
    AscendingSplit(a, bs[i] + b);
    AscendingSplit(bs[i], b);
  }

  /** Keys of an earlier block are below keys of a later one. */
  lemma BlocksApart(es: seq<Entry>, bs: seq<seq<Entry>>, i: nat, j: nat, x: nat, y: nat)
    requires Ascending(es) && Flatten(bs) == es && i < j < |bs| && x < |bs[i]| && y < |bs[j]|
    ensures Less(bs[i][x].key, bs[j][y].key)
  {
    hide Less;
    FlattenAt(bs, j);
    var before, rest := Flatten(bs[..j]), bs[j] + Flatten(bs[j + 1..]);
    AscendingSplit(before, rest);
    FlattenMember(bs[..j], i, x);
    var k :| 0 <= k < |before| && before[k] == bs[i][x];
    assert rest[y] == bs[j][y];
  }

  // -------------------------------------------------------------------- layout

  /** The concatenated data blocks. */
  function Data(bs: seq<seq<Entry>>): seq<byte> { Concat(EncodeAll, bs) }

  function HandleOf(bs: seq<seq<Entry>>, i: nat): Handle
    requires i < |bs|
  {
    var bytes := EncodeAll(bs[i]);
    Handle(if bs[i] == [] then [] else bs[i][|bs[i]| - 1].key, 8 + |Data(bs[..i])|, |bytes|, Crc32c(bytes))
  }

  function Handles(bs: seq<seq<Entry>>): (hs: seq<Handle>)
    ensures |hs| == |bs| && forall i :: 0 <= i < |bs| ==> hs[i] == HandleOf(bs, i)
  {
    seq(|bs|, i requires 0 <= i < |bs| => HandleOf(bs, i))
  }

  function Footer(count: nat, indexOffset: nat, index: seq<byte>): (s: seq<byte>)
    ensures |s| == FOOTER_SIZE
  {
    Le64(count) + (Le64(indexOffset) + (Le64(|index|) + (Le32(Crc32c(index)) + MAGIC)))
  }

  /** Header, data, index, footer. */
  function Assemble(data: seq<byte>, index: seq<byte>, count: nat): seq<byte> {
    MAGIC + (data + (index + Footer(count, 8 + |data|, index)))
  }

  /** The run file for an entry list. */
  function FileOf(es: seq<Entry>): seq<byte> {
    Assemble(Data(Blocks(es)), EncodeIndex(Handles(Blocks(es))), |es|)
  }

  lemma HandlesSnocBlock(bs: seq<seq<Entry>>, b: seq<Entry>)
    ensures Handles(bs + [b]) == Handles(bs) + [HandleOf(bs + [b], |bs|)]
    ensures Data(bs + [b]) == Data(bs) + EncodeAll(b)
    ensures (bs + [b])[..|bs|] == bs
  {
    hide EncodeEntry, Crc32c, EncodeAll;
    assert (bs + [b])[..|bs|] == bs;
    forall i | 0 <= i < |bs| ensures HandleOf(bs + [b], i) == HandleOf(bs, i) {
      assert (bs + [b])[..i] == bs[..i];
    }
  }

  /** Blocks tile the file: block `i` lies in the data at the offset and length
      its handle records, and the next one starts where it ends. */
  lemma BlockPlace(bs: seq<seq<Entry>>, i: nat)
    requires i < |bs|
    ensures At(Data(bs), HandleOf(bs, i).offset - 8, EncodeAll(bs[i]))
    ensures i == 0 ==> HandleOf(bs, i).offset == 8
    ensures i + 1 < |bs| ==> HandleOf(bs, i + 1).offset == HandleOf(bs, i).offset + HandleOf(bs, i).len
    ensures i + 1 == |bs| ==> 8 + |Data(bs)| == HandleOf(bs, i).offset + HandleOf(bs, i).len
  {
    hide EncodeEntry, Crc32c, EncodeAll;
    ConcatItem(EncodeAll, bs, i);
    assert bs[..i + 1][..i] == bs[..i];
    if i + 1 == |bs| { assert bs[..i + 1] == bs; }
  }

  lemma HandlesAreOk(bs: seq<seq<Entry>>)
    requires BlocksOk(bs) && 8 + |Data(bs)| < U64
    ensures AllHandlesOk(Handles(bs)) && AscendingHandles(Handles(bs))
  {
    hide EncodeEntry, Crc32c, Less, EncodeAll;
    forall i | 0 <= i < |bs| ensures HandleOk(HandleOf(bs, i)) {
      BlockPlace(bs, i);
      assert Small(bs[i][|bs[i]| - 1]);
    }
  }

  /** A run file under 2^44 bytes has at most 2^32 blocks, so the 32-bit block
      number of a cache key identifies a block. */
  lemma BlockCountBound(bs: seq<seq<Entry>>)
    requires forall i :: 0 <= i < |bs| - 1 ==> |EncodeAll(bs[i])| >= TARGET_BLOCK_SIZE
    requires |Data(bs)| < 0x1000_0000_0000
    ensures |bs| <= U32
  {
    if |bs| > 1 {
      hide EncodeAll;
      var n := |bs| - 1;
      CountClosed(bs[..n]);
      assert Data(bs) == Data(bs[..n]) + EncodeAll(bs[n]);
    }
  }

  lemma {:induction false} CountClosed(bs: seq<seq<Entry>>)
    requires forall i :: 0 <= i < |bs| ==> |EncodeAll(bs[i])| >= TARGET_BLOCK_SIZE
    ensures |bs| * TARGET_BLOCK_SIZE <= |Data(bs)|
  {
    if bs != [] { CountClosed(bs[..|bs| - 1]); }
  }
}
