/** The newest-wins merge iterator. */
module MergeIterator {
  import opened Bytes
  import opened Records
  import opened Merging
  import opened Cursors

  /** What one call of the iterator yields. */
  datatype Item = Finished | Pair(key: Key, value: seq<byte>) | Failed(error: Error)

  class Merge {
    /** Newest first. */
    const sources: seq<Source>

    ghost function Objects(): set<object> {
      set i | 0 <= i < |sources| :: Obj(sources[i])
    }

    /** Source `i` is well formed, has `rests[i]` to come, and fails later as
        `fails[i]` says. */
    ghost predicate Stands(rests: seq<seq<Entry>>, fails: seq<Option<Error>>)
      reads Objects()
    {
      && |rests| == |fails| == |sources|
      && forall i :: 0 <= i < |sources| ==> StandsAt(sources[i], rests[i], fails[i])
    }

    ghost predicate Apart() {
      forall i, j :: 0 <= i < j < |sources| ==> Obj(sources[i]) != Obj(sources[j])
    }

    constructor (mem: MemIter, runs: seq<RunCursor>)
      requires forall i, j :: 0 <= i < j < |runs| ==> runs[i] != runs[j]
      ensures Apart() && |sources| == |runs| + 1 && sources[0] == Mem(mem)
      ensures forall i :: 0 <= i < |runs| ==> sources[i + 1] == Run(runs[i])
    {
      sources := [Mem(mem)] + seq(|runs|, i requires 0 <= i < |runs| => Run(runs[i]));
    }

    /** Read ahead in every source; report the first failure. */
    method Settle(ghost rests: seq<seq<Entry>>, ghost fails: seq<Option<Error>>) returns (err: Option<Error>)
      requires Apart() && Stands(rests, fails)
      modifies Objects()
      ensures Stands(rests, fails)
      ensures err.Some? ==> err in fails
      ensures err.None? ==> forall i :: 0 <= i < |sources| && rests[i] == [] ==> fails[i].None?
    {
      hide StandsAt, Settled;
      for i := 0 to |sources|
        invariant Stands(rests, fails)
        invariant forall j :: 0 <= j < i ==> Settled(sources[j])
      {
        var _ := Peek(sources[i], rests[i], fails[i]);
      }
      for i := 0 to |sources|
        invariant Stands(rests, fails)
        invariant forall j :: i <= j < |sources| ==> Settled(sources[j])
        invariant forall j :: 0 <= j < i && rests[j] == [] ==> fails[j].None?
      {
        err := Complain(sources[i], rests[i], fails[i]);
        if err.Some? {
          return;
        }
      }
      err := None;
    }

    /** The smallest key at the head of any source. */
    method LeastHead(ghost rests: seq<seq<Entry>>, ghost fails: seq<Option<Error>>) returns (least: Option<Key>)
      requires Apart() && Stands(rests, fails)
      modifies Objects()
      ensures Stands(rests, fails)
      ensures least.None? ==> forall i :: 0 <= i < |sources| ==> rests[i] == []
      ensures least.Some? ==> IsLeastHead(rests, least.value)
    {
      hide StandsAt, Settled, Less;
      least := None;
      for i := 0 to |sources|
        invariant Stands(rests, fails)
        invariant least.None? ==> forall j :: 0 <= j < i ==> rests[j] == []
        invariant least.Some? ==> LeastBelow(rests, i, least.value)
      {
        var k := Peek(sources[i], rests[i], fails[i]);
        LeastExtends(rests, i, least);
        if k.Some? && (least.None? || Less(k.value, least.value)) {
          least := k;
        }
      }
    }

    /** Take the entry at `k` from every source standing there; the first wins. */
    method TakeKey(k: Key, ghost rests: seq<seq<Entry>>, ghost fails: seq<Option<Error>>) returns (chosen: Option<Record>)
      requires Apart() && Stands(rests, fails)
      modifies Objects()
      ensures chosen == Chosen(rests, k) && Stands(PopAll(rests, k), fails)
    {
      hide StandsAt, Pop, HeadIs, Chosen;
      ChosenNothing(k);
      assert rests[0..] == rests;
      chosen := None;
      ghost var now := rests;
      for i := 0 to |sources|
        invariant Stands(now, fails)
        invariant forall j :: 0 <= j < |sources| ==> now[j] == if j < i then Pop(rests[j], k) else rests[j]
        invariant Chosen(rests, k) == if chosen.Some? then chosen else Chosen(rests[i..], k)
      {
        ChosenNext(rests, i, k);
        var record := TakeIf(sources[i], k, rests[i], fails[i]);
        if chosen.None? {
          chosen := record;
        }
        now := now[i := Pop(rests[i], k)];
      }
      assert rests[|sources|..] == [];
      assert now == PopAll(rests, k);
    }

    /** The next live pair in key order. A tombstone that is newest for its key is
        skipped. A failing block surfaces as `Failed`; `Finished` is reported only
        when every source is exhausted and none failed. */
    method Next(ghost rests: seq<seq<Entry>>, ghost fails: seq<Option<Error>>) returns (item: Item, ghost left: seq<seq<Entry>>)
      requires Apart() && Stands(rests, fails) && AllAscending(rests)
      modifies Objects()
      ensures Stands(left, fails) && AllAscending(left) && Total(left) <= Total(rests)
      ensures item.Failed? ==> Some(item.error) in fails
      ensures item.Finished? ==> AllNone(fails) && Merged(rests) == map[]
      ensures item.Pair? ==>
        var db := Merged(rests);
        && item.key in db && db[item.key] == item.value
        && (forall j :: j in db ==> j == item.key || Less(item.key, j))
        && Merged(left) == db - {item.key} && Total(left) < Total(rests)
    {
      hide Merged, Less, AllAscending, Stands, Chosen, PopAll;
      left := rests;
      while true
        invariant Stands(left, fails) && AllAscending(left) && Merged(left) == Merged(rests) && Total(left) <= Total(rests)
        decreases Total(left)
      {
        var err := Settle(left, fails);
        if err.Some? {
          return Failed(err.value), left;
        }
        var least := LeastHead(left, fails);
        if least.None? {
          StandsLengths(left, fails);
          NothingLeft(left);
          return Finished, left;
        }
        StepMerged(left, least.value);
        PopConsumes(left, least.value);
        var chosen := TakeKey(least.value, left, fails);
        left := PopAll(left, least.value);
        if chosen.value.Value? {
          return Pair(least.value, chosen.value.value), left;
        }
      }
    }

    lemma StandsLengths(rests: seq<seq<Entry>>, fails: seq<Option<Error>>)
      requires Stands(rests, fails)
      ensures |fails| == |rests| == |sources|
    {
    }
  }

  // ---------------------------------------------------------- source by source

  predicate AllNone(fails: seq<Option<Error>>) {
    forall i :: 0 <= i < |fails| ==> fails[i].None?
  }

  ghost predicate StandsAt(s: Source, rest: seq<Entry>, fail: Option<Error>)
    reads Obj(s)
  {
    Good(s) && RestOf(s) == rest && FailureOf(s) == fail
  }

  method Peek(s: Source, ghost rest: seq<Entry>, ghost fail: Option<Error>) returns (k: Option<Key>)
    requires StandsAt(s, rest, fail)
    modifies Obj(s)
    ensures StandsAt(s, rest, fail) && Settled(s)
    ensures k == if rest == [] then None else Some(rest[0].key)
  {
    k := PeekKey(s);
  }

  /** Take the source's next entry if it stands at `k`. */
  method TakeIf(s: Source, k: Key, ghost rest: seq<Entry>, ghost fail: Option<Error>) returns (r: Option<Record>)
    requires StandsAt(s, rest, fail)
    modifies Obj(s)
    ensures StandsAt(s, Pop(rest, k), fail)
    ensures r == if HeadIs(rest, k) then Some(rest[0].record) else None
  {
    var head := PeekKey(s);
    if head == Some(k) {
      var e := NextEntry(s);
      r := Some(e.value.record);
    } else {
      r := None;
    }
  }

  method Complain(s: Source, ghost rest: seq<Entry>, ghost fail: Option<Error>) returns (e: Option<Error>)
    requires StandsAt(s, rest, fail) && Settled(s)
    modifies Obj(s)
    ensures StandsAt(s, rest, fail)
    ensures e.Some? ==> e == fail
    ensures e.None? && rest == [] ==> fail.None?
  {
    e := TakeError(s);
  }

  lemma ChosenNothing(k: Key)
    ensures Chosen([], k) == None
  {
  }

  lemma ChosenNext(rests: seq<seq<Entry>>, i: nat, k: Key)
    requires i < |rests|
    ensures Chosen(rests[i..], k) == if HeadIs(rests[i], k) then Some(rests[i][0].record) else Chosen(rests[i + 1..], k)
  {
    assert rests[i..][1..] == rests[i + 1..];
  }

  // -------------------------------------------------------------- least head

  predicate LeastBelow(rests: seq<seq<Entry>>, n: nat, k: Key)
    requires n <= |rests|
  {
    && (exists j :: 0 <= j < n && HeadIs(rests[j], k))
    && (forall j :: 0 <= j < n && rests[j] != [] ==> !Less(rests[j][0].key, k))
  }

  /** One more source considered. */
  lemma LeastExtends(rests: seq<seq<Entry>>, n: nat, least: Option<Key>)
    requires n < |rests|
    requires if least.Some? then LeastBelow(rests, n, least.value) else forall j :: 0 <= j < n ==> rests[j] == []
    ensures rests[n] != [] && (least.None? || Less(rests[n][0].key, least.value)) ==> LeastBelow(rests, n + 1, rests[n][0].key)
    ensures least.Some? && (rests[n] == [] || !Less(rests[n][0].key, least.value)) ==> LeastBelow(rests, n + 1, least.value)
  {
    hide Less;
    if rests[n] != [] {
      var k := rests[n][0].key;
      assert HeadIs(rests[n], k);
      LessIrreflexive(k);
      if least.Some? && Less(k, least.value) {
        forall j | 0 <= j < n && rests[j] != [] ensures !Less(rests[j][0].key, k) {
          if Less(rests[j][0].key, k) { LessTransitive(rests[j][0].key, k, least.value); }
        }
      }
    }
  }

  lemma LessIrreflexive(k: Key)
    ensures !Less(k, k)
  {
    if Less(k, k) { LessAsymmetric(k, k); }
  }
}
