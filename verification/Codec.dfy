/** The byte layout of entries, shared by data blocks and log records, and the
    theory of self-delimiting lists it rests on. */
module Codec {
  import opened Bytes
  import opened Records

  /** Hard cap on any length prefix a reader accepts: 2^30. */
  const MAX_LEN: nat := 0x4000_0000

  const TAG_VALUE: byte := 0
  const TAG_TOMBSTONE: byte := 1

  // ------------------------------------------------------------ bounded reads

  function ReadU8(bytes: seq<byte>, pos: nat): (r: Result<(byte, nat)>)
    requires pos <= |bytes|
    ensures r.Ok? <==> pos < |bytes|
    ensures r.Ok? ==> r.value.1 == pos + 1 && bytes[pos..r.value.1] == [r.value.0]
  {
    if pos < |bytes| then Ok((bytes[pos], pos + 1)) else Err(Corruption)
  }

  function ReadBytes(bytes: seq<byte>, pos: nat, len: nat): (r: Result<(seq<byte>, nat)>)
    requires pos <= |bytes|
    ensures r.Ok? <==> pos + len <= |bytes|
    ensures r.Ok? ==> r.value.1 == pos + len && bytes[pos..r.value.1] == r.value.0
  {
    if pos + len <= |bytes| then Ok((bytes[pos..pos + len], pos + len)) else Err(Corruption)
  }

  function ReadU32(bytes: seq<byte>, pos: nat): (r: Result<(nat, nat)>)
    requires pos <= |bytes|
    ensures r.Ok? <==> pos + 4 <= |bytes|
    ensures r.Ok? ==> r.value.0 < U32 && r.value.1 == pos + 4 && bytes[pos..r.value.1] == Le32(r.value.0)
  {
    var raw :- ReadBytes(bytes, pos, 4);
    Ok((U32Of(raw.0), raw.1))
  }

  function ReadU64(bytes: seq<byte>, pos: nat): (r: Result<(nat, nat)>)
    requires pos <= |bytes|
    ensures r.Ok? <==> pos + 8 <= |bytes|
    ensures r.Ok? ==> r.value.0 < U64 && r.value.1 == pos + 8 && bytes[pos..r.value.1] == Le64(r.value.0)
  {
    var raw :- ReadBytes(bytes, pos, 8);
    Ok((U64Of(raw.0), raw.1))
  }

  /** `bytes` continues with `part` at `pos`. */
  predicate At(bytes: seq<byte>, pos: nat, part: seq<byte>) {
    pos + |part| <= |bytes| && bytes[pos..pos + |part|] == part
  }

  lemma AtConcat(bytes: seq<byte>, pos: nat, a: seq<byte>, b: seq<byte>)
    ensures At(bytes, pos, a + b) <==> At(bytes, pos, a) && At(bytes, pos + |a|, b)
  {
    if pos + |a| + |b| <= |bytes| {
      assert bytes[pos..pos + |a + b|] == bytes[pos..pos + |a|] + bytes[pos + |a|..pos + |a| + |b|];
      if At(bytes, pos, a + b) {
        assert bytes[pos..pos + |a|] == (a + b)[..|a|];
        assert bytes[pos + |a|..pos + |a| + |b|] == (a + b)[|a|..];
      }
    }
  }

  lemma ReadsU32(bytes: seq<byte>, pos: nat, n: nat)
    requires n < U32 && At(bytes, pos, Le32(n))
    ensures pos <= |bytes| && ReadU32(bytes, pos) == Ok((n, pos + 4))
  {
    Le32RoundTrip(n);
  }

  lemma ReadsU64(bytes: seq<byte>, pos: nat, n: nat)
    requires n < U64 && At(bytes, pos, Le64(n))
    ensures pos <= |bytes| && ReadU64(bytes, pos) == Ok((n, pos + 8))
  {
    Le64RoundTrip(n);
  }

  // ------------------------------------------------------------------ entries

  function EncodeRecord(r: Record): (s: seq<byte>)
    ensures |s| == 5 + r.ValueLen()
  {
    match r
    case Value(v) => [TAG_VALUE] + (Le32(|v|) + v)
    case Tombstone => [TAG_TOMBSTONE] + Le32(0)
  }

  /** Length-prefixed key, tag, length-prefixed value. A length that does not fit
      its prefix is truncated, as the log encoder's casts do. */
  function EncodeEntry(e: Entry): (s: seq<byte>)
    ensures |s| == 9 + |e.key| + e.record.ValueLen()
  {
    Le32(|e.key|) + (e.key + EncodeRecord(e.record))
  }

  /** Within the readers' length cap. */
  predicate Small(e: Entry) {
    |e.key| <= MAX_LEN && e.record.ValueLen() <= MAX_LEN
  }

  predicate AllSmall(es: seq<Entry>) {
    forall i :: 0 <= i < |es| ==> Small(es[i])
  }

  function DecodeRecord(bytes: seq<byte>, pos: nat): (r: Result<(Record, nat)>)
    requires pos <= |bytes|
    ensures r.Ok? ==> r.value.0.ValueLen() <= MAX_LEN && r.value.1 == pos + |EncodeRecord(r.value.0)|
    ensures r.Ok? ==> At(bytes, pos, EncodeRecord(r.value.0))
  {
    var tag :- ReadU8(bytes, pos);
    var len :- ReadU32(bytes, tag.1);
    if len.0 > MAX_LEN then Err(Corruption)
    else if tag.0 == TAG_VALUE then
      var value :- ReadBytes(bytes, len.1, len.0);
      AtConcat(bytes, pos, [TAG_VALUE], Le32(len.0) + value.0);
      AtConcat(bytes, tag.1, Le32(len.0), value.0);
      Ok((Value(value.0), value.1))
    else if tag.0 == TAG_TOMBSTONE then
      if len.0 != 0 then Err(Corruption)
      else
        AtConcat(bytes, pos, [TAG_TOMBSTONE], Le32(0));
        Ok((Tombstone, len.1))
    else Err(Corruption)
  }

  /** Read one entry at `pos`, every field bounds-checked. */
  function DecodeEntry(bytes: seq<byte>, pos: nat): (r: Result<(Entry, nat)>)
    requires pos <= |bytes|
    ensures r.Ok? ==> Small(r.value.0) && r.value.1 == pos + |EncodeEntry(r.value.0)| <= |bytes|
  {
    var len :- ReadU32(bytes, pos);
    if len.0 > MAX_LEN then Err(Corruption)
    else
      var key :- ReadBytes(bytes, len.1, len.0);
      var record :- DecodeRecord(bytes, key.1);
      Ok((Entry(key.0, record.0), record.1))
  }

  /** What the decoder accepts is the encoding of what it returns. */
  lemma DecodedEntry(bytes: seq<byte>, pos: nat)
    requires pos <= |bytes| && DecodeEntry(bytes, pos).Ok?
    ensures At(bytes, pos, EncodeEntry(DecodeEntry(bytes, pos).value.0))
  {
    hide Le32, EncodeRecord, EncodeEntry, DecodeRecord, ReadU32, ReadBytes;
    EntryAt(bytes, pos, DecodeEntry(bytes, pos).value.0);
  }

  /** An entry sits at `pos` when its three parts sit one after another. */
  lemma EntryAt(bytes: seq<byte>, pos: nat, e: Entry)
    ensures At(bytes, pos, EncodeEntry(e)) <==>
      && At(bytes, pos, Le32(|e.key|)) && At(bytes, pos + 4, e.key)
      && At(bytes, pos + 4 + |e.key|, EncodeRecord(e.record))
  {
    AtConcat(bytes, pos, Le32(|e.key|), e.key + EncodeRecord(e.record));
    AtConcat(bytes, pos + 4, e.key, EncodeRecord(e.record));
  }

  lemma DecodesValue(bytes: seq<byte>, pos: nat, v: seq<byte>)
    requires |v| <= MAX_LEN && At(bytes, pos, [TAG_VALUE]) && At(bytes, pos + 1, Le32(|v|)) && At(bytes, pos + 5, v)
    ensures pos <= |bytes| && DecodeRecord(bytes, pos) == Ok((Value(v), pos + 5 + |v|))
  {
    hide Le32, EncodeRecord, ReadU32;
    assert bytes[pos] == bytes[pos..pos + 1][0] == TAG_VALUE;
    ReadsU32(bytes, pos + 1, |v|);
  }

  lemma DecodesTombstone(bytes: seq<byte>, pos: nat)
    requires At(bytes, pos, [TAG_TOMBSTONE]) && At(bytes, pos + 1, Le32(0))
    ensures pos <= |bytes| && DecodeRecord(bytes, pos) == Ok((Tombstone, pos + 5))
  {
    hide Le32, EncodeRecord, ReadU32, ReadBytes;
    assert bytes[pos] == bytes[pos..pos + 1][0] == TAG_TOMBSTONE;
    ReadsU32(bytes, pos + 1, 0);
  }

  lemma DecodesRecord(bytes: seq<byte>, pos: nat, r: Record)
    requires r.ValueLen() <= MAX_LEN && At(bytes, pos, EncodeRecord(r))
    ensures pos <= |bytes| && DecodeRecord(bytes, pos) == Ok((r, pos + |EncodeRecord(r)|))
  {
    hide Le32, EncodeRecord, DecodeRecord;
    RecordAt(bytes, pos, r);
    match r
    case Value(v) => DecodesValue(bytes, pos, v);
    case Tombstone => DecodesTombstone(bytes, pos);
  }

  /** The decoder recognises every encoded entry, whatever follows it. */
  lemma DecodesEntry(bytes: seq<byte>, pos: nat, e: Entry)
    requires Small(e) && At(bytes, pos, EncodeEntry(e))
    ensures pos <= |bytes| && DecodeEntry(bytes, pos) == Ok((e, pos + |EncodeEntry(e)|))
  {
    hide Le32, EncodeRecord, EncodeEntry, DecodeRecord, ReadU32, ReadBytes;
    EntryAt(bytes, pos, e);
    ReadsU32(bytes, pos, |e.key|);
    DecodesRecord(bytes, pos + 4 + |e.key|, e.record);
  }

  // -------------------------------------------------------- concatenated lists

  /** The encodings of a list, one after another. */
  function Concat<T>(enc: T -> seq<byte>, xs: seq<T>): seq<byte> {
    if xs == [] then [] else Concat(enc, xs[..|xs| - 1]) + enc(xs[|xs| - 1])
  }

  /** No acceptable item's encoding is empty or begins another's. */
  ghost predicate PrefixFree<T(!new)>(enc: T -> seq<byte>, ok: T -> bool) {
    && (forall x :: ok(x) ==> enc(x) != [])
    && (forall x, y, bytes, pos: nat :: ok(x) && ok(y) && At(bytes, pos, enc(x)) && At(bytes, pos, enc(y)) ==> x == y)
  }

  lemma {:induction false} ConcatAppend<T>(enc: T -> seq<byte>, a: seq<T>, b: seq<T>)
    ensures Concat(enc, a + b) == Concat(enc, a) + Concat(enc, b)
  {
    if b == [] {
      assert a + b == a;
    } else {
      var n := |b| - 1;
      assert (a + b)[..|a + b| - 1] == a + b[..n];
      ConcatAppend(enc, a, b[..n]);
    }
  }

  lemma ConcatOne<T>(enc: T -> seq<byte>, x: T)
    ensures Concat(enc, [x]) == enc(x)
  {
    assert [x][..0] == [];
  }

  /** A list whose encoding begins another's is a prefix of it: the bytes decide
      the items. */
  lemma {:induction false} ConcatUnique<T(!new)>(enc: T -> seq<byte>, ok: T -> bool, a: seq<T>, b: seq<T>)
    requires PrefixFree(enc, ok)
    requires forall i :: 0 <= i < |a| ==> ok(a[i])
    requires forall i :: 0 <= i < |b| ==> ok(b[i])
    requires Concat(enc, a) <= Concat(enc, b)
    ensures a <= b
  {
    if a != [] {
      var n := |a| - 1;
      var front := Concat(enc, a[..n]);
      assert front <= front + enc(a[n]) <= Concat(enc, b);
      ConcatUnique(enc, ok, a[..n], b);
      NextItem(enc, ok, a, b, n);
    }
  }

  /** Lists that agree up to item `n` agree on it too. */
  lemma NextItem<T(!new)>(enc: T -> seq<byte>, ok: T -> bool, a: seq<T>, b: seq<T>, n: nat)
    requires PrefixFree(enc, ok) && n == |a| - 1 && a[..n] <= b && ok(a[n])
    requires forall i :: 0 <= i < |b| ==> ok(b[i])
    requires Concat(enc, a[..n]) + enc(a[n]) <= Concat(enc, b)
    ensures a <= b
  {
    hide Concat, PrefixFree, At;
    var bytes, front := Concat(enc, b), Concat(enc, a[..n]);
    assert b[..n] == a[..n];
    LongerList(enc, ok, a[n], b, n);
    ConcatItem(enc, b, n);
    AtAfter(bytes, front, enc(a[n]));
    SameItem(enc, ok, bytes, |front|, a[n], b[n]);
    OneLonger(a, b, n);
  }

  lemma AtAfter(bytes: seq<byte>, front: seq<byte>, part: seq<byte>)
    requires front + part <= bytes
    ensures At(bytes, |front|, part)
  {
    assert bytes[..|front + part|] == front + part;
  }

  lemma SameItem<T(!new)>(enc: T -> seq<byte>, ok: T -> bool, bytes: seq<byte>, pos: nat, x: T, y: T)
    requires PrefixFree(enc, ok) && ok(x) && ok(y) && At(bytes, pos, enc(x)) && At(bytes, pos, enc(y))
    ensures x == y
  {
    hide At;
  }

  lemma OneLonger<T>(a: seq<T>, b: seq<T>, n: nat)
    requires n == |a| - 1 && n < |b| && a[..n] == b[..n] && a[n] == b[n]
    ensures a <= b
  {
    assert forall i :: 0 <= i < n ==> a[i] == a[..n][i] == b[i];
  }

  lemma LongerList<T(!new)>(enc: T -> seq<byte>, ok: T -> bool, x: T, b: seq<T>, n: nat)
    requires PrefixFree(enc, ok) && n <= |b| && ok(x) && |Concat(enc, b[..n]) + enc(x)| <= |Concat(enc, b)|
    ensures n < |b|
  {
    hide Concat;
    assert enc(x) != [];
    assert b[..|b|] == b;
  }

  /** Where item `n` of a list sits in the list's encoding. */
  lemma ConcatItem<T>(enc: T -> seq<byte>, xs: seq<T>, n: nat)
    requires n < |xs|
    ensures At(Concat(enc, xs), |Concat(enc, xs[..n])|, enc(xs[n]))
    ensures Concat(enc, xs) == Concat(enc, xs[..n]) + (enc(xs[n]) + Concat(enc, xs[n + 1..]))
  {
    assert xs == xs[..n] + ([xs[n]] + xs[n + 1..]);
    ConcatAppend(enc, xs[..n], [xs[n]] + xs[n + 1..]);
    ConcatAppend(enc, [xs[n]], xs[n + 1..]);
    ConcatOne(enc, xs[n]);
  }

  /** A parser that has consumed `done` of `bytes` stands before the next item of
      any list the bytes encode. */
  lemma ConcatResume<T(!new)>(enc: T -> seq<byte>, ok: T -> bool, bytes: seq<byte>, done: seq<T>, xs: seq<T>)
    requires PrefixFree(enc, ok)
    requires forall i :: 0 <= i < |done| ==> ok(done[i])
    requires forall i :: 0 <= i < |xs| ==> ok(xs[i])
    requires Concat(enc, xs) == bytes && At(bytes, 0, Concat(enc, done)) && |Concat(enc, done)| < |bytes|
    ensures |done| < |xs| && xs[..|done|] == done && At(bytes, |Concat(enc, done)|, enc(xs[|done|]))
  {
    ConcatUnique(enc, ok, done, xs);
    assert xs[..|xs|] == xs && xs[..|done|] == done;
    ConcatItem(enc, xs, |done|);
  }

  /** One more item read extends the bytes accounted for. */
  lemma ConcatExtend<T>(enc: T -> seq<byte>, bytes: seq<byte>, start: nat, done: seq<T>, x: T)
    requires At(bytes, start, Concat(enc, done)) && At(bytes, start + |Concat(enc, done)|, enc(x))
    ensures At(bytes, start, Concat(enc, done + [x])) && Concat(enc, done + [x]) == Concat(enc, done) + enc(x)
  {
    assert (done + [x])[..|done|] == done;
    AtConcat(bytes, start, Concat(enc, done), enc(x));
  }

  lemma EntriesPrefixFree()
    ensures PrefixFree(EncodeEntry, Small)
  {
    forall x, y, bytes, pos: nat | Small(x) && Small(y) && At(bytes, pos, EncodeEntry(x)) && At(bytes, pos, EncodeEntry(y))
      ensures x == y
    {
      DecodesEntry(bytes, pos, x);
      DecodesEntry(bytes, pos, y);
    }
  }

  /** Lengths that fit their prefix, whether or not a reader takes them. */
  predicate Wide(e: Entry) {
    |e.key| < U32 && e.record.ValueLen() < U32
  }

  /** Two pieces of the same length at the same place are the same. */
  lemma AtSame(bytes: seq<byte>, pos: nat, a: seq<byte>, b: seq<byte>)
    requires At(bytes, pos, a) && At(bytes, pos, b) && |a| == |b|
    ensures a == b
  {
  }

  lemma SameNumber(bytes: seq<byte>, pos: nat, n: nat, m: nat)
    requires n < U32 && m < U32 && At(bytes, pos, Le32(n)) && At(bytes, pos, Le32(m))
    ensures n == m
  {
    hide Le32;
    AtSame(bytes, pos, Le32(n), Le32(m));
    Le32RoundTrip(n);
    Le32RoundTrip(m);
  }

  lemma RecordAt(bytes: seq<byte>, pos: nat, r: Record)
    requires At(bytes, pos, EncodeRecord(r))
    ensures At(bytes, pos, [if r.Value? then TAG_VALUE else TAG_TOMBSTONE]) && At(bytes, pos + 1, Le32(r.ValueLen()))
    ensures r.Value? ==> At(bytes, pos + 5, r.value)
  {
    hide Le32;
    match r
    case Value(v) =>
      AtConcat(bytes, pos, [TAG_VALUE], Le32(|v|) + v);
      AtConcat(bytes, pos + 1, Le32(|v|), v);
    case Tombstone => AtConcat(bytes, pos, [TAG_TOMBSTONE], Le32(0));
  }

  lemma SameRecord(bytes: seq<byte>, pos: nat, x: Record, y: Record)
    requires x.ValueLen() < U32 && y.ValueLen() < U32 && At(bytes, pos, EncodeRecord(x)) && At(bytes, pos, EncodeRecord(y))
    ensures x == y
  {
    hide Le32, EncodeRecord;
    RecordAt(bytes, pos, x);
    RecordAt(bytes, pos, y);
    SameNumber(bytes, pos + 1, x.ValueLen(), y.ValueLen());
    AtSame(bytes, pos, [if x.Value? then TAG_VALUE else TAG_TOMBSTONE], [if y.Value? then TAG_VALUE else TAG_TOMBSTONE]);
    if x.Value? && y.Value? { AtSame(bytes, pos + 5, x.value, y.value); }
  }

  lemma WidePrefixFree()
    ensures PrefixFree(EncodeEntry, Wide)
  {
    hide Le32, EncodeEntry, EncodeRecord;
    forall x, y, bytes, pos: nat | Wide(x) && Wide(y) && At(bytes, pos, EncodeEntry(x)) && At(bytes, pos, EncodeEntry(y))
      ensures x == y
    {
      EntryAt(bytes, pos, x);
      EntryAt(bytes, pos, y);
      SameNumber(bytes, pos, |x.key|, |y.key|);
      AtSame(bytes, pos + 4, x.key, y.key);
      SameRecord(bytes, pos + 4 + |x.key|, x.record, y.record);
    }
  }

  function EncodeAll(es: seq<Entry>): seq<byte> { Concat(EncodeEntry, es) }

  /** Two lists of small entries with the same bytes are the same list. */
  lemma EncodeAllInjective(a: seq<Entry>, b: seq<Entry>)
    requires AllSmall(a) && AllSmall(b) && EncodeAll(a) == EncodeAll(b)
    ensures a == b
  {
    EntriesPrefixFree();
    ConcatUnique(EncodeEntry, Small, a, b);
    ConcatUnique(EncodeEntry, Small, b, a);
  }
}
