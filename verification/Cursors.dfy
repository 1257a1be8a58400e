/** The inputs of a merge: a cursor that reads a run block by block, and a list of
    buffered entries. */
module Cursors {
  import opened Bytes
  import opened Records
  import opened RunLayout
  import opened SsTables
  import Checksum

  // -------------------------------------------------------------------- cursor

  /** What is left of a run from block `i` on: its entries up to the first block
      that fails its checks, and how that block fails. */
  datatype Tail = Tail(entries: seq<Entry>, failure: Option<Error>)

  ghost function TailFrom(t: SsTable, i: nat): Tail
    decreases |t.index| - i
  {
    if i >= |t.index| then Tail([], None)
    else if BlockAt(t, i).Err? then Tail([], Some(BlockAt(t, i).error))
    else
      var rest := TailFrom(t, i + 1);
      Tail(BlockAt(t, i).value + rest.entries, rest.failure)
  }

  /** A cursor over a written run has exactly its entries to yield. */
  lemma {:induction false} WrittenTail(t: SsTable, es: seq<Entry>, i: nat)
    requires TableFor(t, es) && i <= |t.index|
    ensures |t.index| == |Blocks(es)| && TailFrom(t, i) == Tail(Flatten(Blocks(es)[i..]), None)
    decreases |t.index| - i
  {
    hide TableFor, BlockAt, Blocks, Flatten;
    var bs := Blocks(es);
    IndexPerBlock(t, es);
    if i == |t.index| {
      assert bs[i..] == [];
      FlattenNothing();
    } else {
      WrittenBlock(t, es, i);
      WrittenTail(t, es, i + 1);
      assert bs[i..] == [bs[i]] + bs[i + 1..];
      FlattenAppend([bs[i]], bs[i + 1..]);
      FlattenOne(bs[i]);
    }
  }

  lemma IndexPerBlock(t: SsTable, es: seq<Entry>)
    requires TableFor(t, es)
    ensures |t.index| == |Blocks(es)|
  {
  }

  lemma FlattenNothing()
    ensures Flatten([]) == []
  {
  }

  lemma WrittenRest(t: SsTable, es: seq<Entry>)
    requires TableFor(t, es)
    ensures TailFrom(t, 0) == Tail(es, None) && Ascending(es)
  {
    hide TailFrom;
    WrittenTail(t, es, 0);
    BlocksAreOk(es);
    assert Blocks(es)[0..] == Blocks(es);
  }

  class RunCursor {
    const table: SsTable
    var nextBlock: nat
    var block: seq<Entry>
    var peeked: Option<Entry>
    var error: Option<Error>

    ghost predicate Valid()
      reads this
    {
      nextBlock <= |table.index| &&
      (error.Some? ==> peeked.None? && block == [] && nextBlock < |table.index| && BlockAt(table, nextBlock) == Err(error.value))
    }

    /** The entries still to come. */
    ghost function Rest(): seq<Entry>
      reads this
    {
      (if peeked.Some? then [peeked.value] else []) + block + TailFrom(table, nextBlock).entries
    }

    /** How the blocks still to come fail their checks, if they do. */
    ghost function Failure(): Option<Error>
      reads this
    {
      TailFrom(table, nextBlock).failure
    }

    constructor (t: SsTable)
      ensures Valid() && Rest() == TailFrom(t, 0).entries && Failure() == TailFrom(t, 0).failure
    {
      table := t;
      nextBlock, block, peeked, error := 0, [], None, None;
    }

    /** Make `peeked` the next entry, reading blocks as needed. */
    method Fill()
      requires Valid()
      modifies this
      ensures Valid() && Rest() == old(Rest()) && Failure() == old(Failure())
      ensures peeked.Some? <==> Rest() != []
      ensures peeked.Some? ==> peeked.value == Rest()[0]
      ensures error.Some? ==> Failure() == error
      ensures error.None? && peeked.None? ==> Failure().None?
    {
      hide BlockAt, Intact, Checksum.Crc32c;
      if peeked.Some? || error.Some? {
        return;
      }
      while true
        invariant Valid() && Rest() == old(Rest()) && Failure() == old(Failure()) && peeked.None? && error.None?
        decreases |table.index| - nextBlock, |block|
      {
        if block != [] {
          assert block == [block[0]] + block[1..];
          peeked, block := Some(block[0]), block[1..];
          return;
        }
        if nextBlock >= |table.index| {
          return;
        }
        var r := DecodeBlockAt(table, nextBlock);
        if r.Err? {
          error := Some(r.error);
          return;
        }
        nextBlock := nextBlock + 1;
        block := r.value;
      }
    }

    method PeekKey() returns (k: Option<Key>)
      requires Valid()
      modifies this
      ensures Valid() && Rest() == old(Rest()) && Failure() == old(Failure())
      ensures k == if Rest() == [] then None else Some(Rest()[0].key)
      ensures Rest() == [] && Failure().Some? ==> error.Some?
    {
      Fill();
      k := if peeked.Some? then Some(peeked.value.key) else None;
    }

    method NextEntry() returns (e: Option<Entry>)
      requires Valid()
      modifies this
      ensures Valid() && Failure() == old(Failure())
      ensures e == if old(Rest()) == [] then None else Some(old(Rest())[0])
      ensures Rest() == if old(Rest()) == [] then [] else old(Rest())[1..]
    {
      hide TailFrom;
      Fill();
      ghost var later := block + TailFrom(table, nextBlock).entries;
      assert Rest() == (if peeked.Some? then [peeked.value] else []) + later;
      e := peeked;
      peeked := None;
      assert Rest() == later;
    }

    method TakeError() returns (e: Option<Error>)
      requires Valid()
      modifies this
      ensures Valid() && Rest() == old(Rest()) && Failure() == old(Failure())
      ensures e == old(error) && error.None?
    {
      e := error;
      error := None;
    }
  }

  // -------------------------------------------------------------------- source

  class MemIter {
    var rest: seq<Entry>

    constructor (s: seq<Entry>)
      ensures rest == s
    {
      rest := s;
    }
  }

  /** One input of a merge: the memtable snapshot or a run. */
  datatype Source = Mem(it: MemIter) | Run(cur: RunCursor)

  ghost function Obj(s: Source): object {
    if s.Mem? then s.it else s.cur
  }

  ghost predicate Good(s: Source)
    reads Obj(s)
  {
    s.Run? ==> s.cur.Valid()
  }

  ghost function RestOf(s: Source): seq<Entry>
    reads Obj(s)
  {
    if s.Mem? then s.it.rest else s.cur.Rest()
  }

  ghost function FailureOf(s: Source): Option<Error>
    reads Obj(s)
  {
    if s.Mem? then None else s.cur.Failure()
  }

  /** The source has nothing left to read ahead for: a failing block shows as an
      error before the source looks exhausted. */
  ghost predicate Settled(s: Source)
    reads Obj(s)
  {
    s.Run? && s.cur.Rest() == [] && s.cur.Failure().Some? ==> s.cur.error.Some?
  }

  method PeekKey(s: Source) returns (k: Option<Key>)
    requires Good(s)
    modifies Obj(s)
    ensures Good(s) && RestOf(s) == old(RestOf(s)) && FailureOf(s) == old(FailureOf(s)) && Settled(s)
    ensures k == if RestOf(s) == [] then None else Some(RestOf(s)[0].key)
  {
    match s
    case Mem(it) => k := if it.rest == [] then None else Some(it.rest[0].key);
    case Run(cur) => k := cur.PeekKey();
  }

  method NextEntry(s: Source) returns (e: Option<Entry>)
    requires Good(s)
    modifies Obj(s)
    ensures Good(s) && FailureOf(s) == old(FailureOf(s))
    ensures e == if old(RestOf(s)) == [] then None else Some(old(RestOf(s))[0])
    ensures RestOf(s) == if old(RestOf(s)) == [] then [] else old(RestOf(s))[1..]
  {
    match s
    case Mem(it) =>
      if it.rest == [] {
        e := None;
      } else {
        e := Some(it.rest[0]);
        it.rest := it.rest[1..];
      }
    case Run(cur) => e := cur.NextEntry();
  }

  method TakeError(s: Source) returns (e: Option<Error>)
    requires Good(s)
    modifies Obj(s)
    ensures Good(s) && RestOf(s) == old(RestOf(s)) && FailureOf(s) == old(FailureOf(s))
    ensures e.Some? ==> FailureOf(s) == e
    ensures old(Settled(s)) && e.None? ==> RestOf(s) == [] ==> FailureOf(s).None?
  {
    match s
    case Mem(_) => e := None;
    case Run(cur) => e := cur.TakeError();
  }
}
