/** What a newest-first k-way merge must produce, on plain entry lists. */
module Merging {
  import opened Bytes
  import opened Records

  predicate AllAscending(rests: seq<seq<Entry>>) {
    forall i :: 0 <= i < |rests| ==> Ascending(rests[i])
  }

  function Tables(rests: seq<seq<Entry>>): (ts: seq<Table>)
    ensures |ts| == |rests|
  {
    seq(|rests|, i requires 0 <= i < |rests| => TableOf(rests[i]))
  }

  /** The newest record of every key still to come. */
  function Newest(rests: seq<seq<Entry>>): Table { Overlay(Tables(rests)) }

  /** The database the merge still has to emit. */
  function Merged(rests: seq<seq<Entry>>): Db { Live(Newest(rests)) }

  function Total(rests: seq<seq<Entry>>): nat {
    if rests == [] then 0 else Total(rests[..|rests| - 1]) + |rests[|rests| - 1]|
  }

  predicate HeadIs(rest: seq<Entry>, k: Key) { rest != [] && rest[0].key == k }

  /** `k` is the smallest key at the head of any source. */
  predicate IsLeastHead(rests: seq<seq<Entry>>, k: Key) {
    && (exists i :: 0 <= i < |rests| && HeadIs(rests[i], k))
    && (forall i :: 0 <= i < |rests| && rests[i] != [] ==> !Less(rests[i][0].key, k))
  }

  function Pop(rest: seq<Entry>, k: Key): seq<Entry> {
    if HeadIs(rest, k) then rest[1..] else rest
  }

  function PopAll(rests: seq<seq<Entry>>, k: Key): (r: seq<seq<Entry>>)
    ensures |r| == |rests|
  {
    seq(|rests|, i requires 0 <= i < |rests| => Pop(rests[i], k))
  }

  /** The record of the first source standing at `k`. */
  function Chosen(rests: seq<seq<Entry>>, k: Key): Option<Record> {
    if rests == [] then None
    else if HeadIs(rests[0], k) then Some(rests[0][0].record)
    else Chosen(rests[1..], k)
  }

  /** Taking `k` off an ascending source whose head is not below `k` removes `k`
      from it and nothing else. */
  lemma PopOne(rest: seq<Entry>, k: Key)
    requires Ascending(rest) && (rest != [] ==> !Less(rest[0].key, k))
    ensures Ascending(Pop(rest, k)) && TableOf(Pop(rest, k)) == TableOf(rest) - {k}
    ensures k in TableOf(rest) <==> HeadIs(rest, k)
    ensures HeadIs(rest, k) ==> TableOf(rest)[k] == rest[0].record
    ensures forall j :: j in TableOf(rest) ==> j == k || Less(k, j)
  {
    hide TableOf, Less;
    TableOfKeys(rest);
    if rest != [] {
      TailTable(rest);
      TableOfAt(rest, 0);
      LessTotal(k, rest[0].key);
      forall i | 0 <= i < |rest| ensures rest[i].key == k || Less(k, rest[i].key) {
        if i > 0 && Less(k, rest[0].key) { LessTransitive(k, rest[0].key, rest[i].key); }
      }
      if !HeadIs(rest, k) {
        forall i | 0 <= i < |rest| ensures rest[i].key != k {
          if i > 0 { LessTransitive(k, rest[0].key, rest[i].key); }
          LessAsymmetric(k, rest[i].key);
        }
      }
    }
  }

  lemma TablesTail(rests: seq<seq<Entry>>)
    requires rests != []
    ensures Tables(rests)[1..] == Tables(rests[1..])
  {
  }

  /** One step of the merge: the least key leaves every source, and the newest
      source's record is the overlay's. */
  lemma {:induction false} MergeStep(rests: seq<seq<Entry>>, k: Key)
    requires AllAscending(rests) && forall i :: 0 <= i < |rests| && rests[i] != [] ==> !Less(rests[i][0].key, k)
    ensures AllAscending(PopAll(rests, k)) && Newest(PopAll(rests, k)) == Newest(rests) - {k}
    ensures Chosen(rests, k) == if k in Newest(rests) then Some(Newest(rests)[k]) else None
    ensures forall j :: j in Newest(rests) ==> j == k || Less(k, j)
  {
    hide TableOf, Less;
    if rests != [] {
      PopOne(rests[0], k);
      MergeStep(rests[1..], k);
      TablesTail(rests);
      TablesTail(PopAll(rests, k));
      assert PopAll(rests, k)[1..] == PopAll(rests[1..], k);
      OverlayWithout(Newest(rests[1..]), TableOf(rests[0]), k);
      AllAscendingPop(rests, k);
    }
  }

  lemma OverlayWithout(lower: Table, upper: Table, k: Key)
    ensures (lower - {k}) + (upper - {k}) == (lower + upper) - {k}
  {
  }

  lemma AllAscendingPop(rests: seq<seq<Entry>>, k: Key)
    requires AllAscending(rests)
    ensures AllAscending(PopAll(rests, k))
  {
  }

  lemma {:induction false} ChosenExists(rests: seq<seq<Entry>>, k: Key)
    ensures Chosen(rests, k).Some? <==> exists i :: 0 <= i < |rests| && HeadIs(rests[i], k)
  {
    if rests != [] {
      ChosenExists(rests[1..], k);
      if i :| 0 < i < |rests| && HeadIs(rests[i], k) { assert HeadIs(rests[1..][i - 1], k); }
      if i :| 0 <= i < |rests[1..]| && HeadIs(rests[1..][i], k) { assert HeadIs(rests[i + 1], k); }
    }
  }

  /** What emitting, or skipping, the least key does to what is left. */
  lemma StepMerged(rests: seq<seq<Entry>>, k: Key)
    requires AllAscending(rests) && IsLeastHead(rests, k)
    ensures Chosen(rests, k).Some? && AllAscending(PopAll(rests, k))
    ensures Chosen(rests, k) == Some(Tombstone) ==> Merged(PopAll(rests, k)) == Merged(rests)
    ensures Chosen(rests, k).value.Value? ==>
      k in Merged(rests) && Merged(rests)[k] == Chosen(rests, k).value.value && Merged(PopAll(rests, k)) == Merged(rests) - {k}
    ensures forall j :: j in Merged(rests) ==> j == k || Less(k, j)
  {
    hide Newest, Chosen, PopAll, Less;
    MergeStep(rests, k);
    ChosenExists(rests, k);
  }

  lemma NothingLeft(rests: seq<seq<Entry>>)
    requires forall i :: 0 <= i < |rests| ==> rests[i] == []
    ensures Merged(rests) == map[]
  {
    NewestEmpty(rests);
  }

  lemma {:induction false} NewestEmpty(rests: seq<seq<Entry>>)
    requires forall i :: 0 <= i < |rests| ==> rests[i] == []
    ensures Newest(rests) == map[]
  {
    if rests != [] {
      NewestEmpty(rests[1..]);
      TablesTail(rests);
    }
  }

  /** Every step consumes at least one entry: the measure of the whole merge. */
  lemma {:induction false} PopConsumes(rests: seq<seq<Entry>>, k: Key)
    ensures Total(PopAll(rests, k)) <= Total(rests)
    ensures (exists i :: 0 <= i < |rests| && HeadIs(rests[i], k)) ==> Total(PopAll(rests, k)) < Total(rests)
  {
    if rests != [] {
      var n := |rests| - 1;
      PopConsumes(rests[..n], k);
      assert PopAll(rests, k)[..n] == PopAll(rests[..n], k);
      if i :| 0 <= i < n && HeadIs(rests[i], k) { assert HeadIs(rests[..n][i], k); }
    }
  }

  // ------------------------------------------------------- an emitted listing

  predicate OnlyValues(out: seq<Entry>) {
    forall i :: 0 <= i < |out| ==> out[i].record.Value?
  }

  /** `out` followed by what `rests` still holds is the listing of `db`. */
  predicate Listed(db: Db, out: seq<Entry>, left: Db) {
    && Ascending(out) && OnlyValues(out)
    && Values(db) == TableOf(out) + Values(left)
    && forall i, k :: 0 <= i < |out| && k in left ==> Less(out[i].key, k)
  }

  lemma ListedStart(db: Db)
    ensures Listed(db, [], db)
  {
  }

  lemma ListedStep(db: Db, out: seq<Entry>, left: Db, k: Key)
    requires Listed(db, out, left) && k in left && forall j :: j in left ==> j == k || Less(k, j)
    ensures Listed(db, out + [Entry(k, Value(left[k]))], left - {k})
  {
    hide Less, TableOf, Values;
    var e := Entry(k, Value(left[k]));
    TableOfSnoc(out, e);
    AscendingSnoc(out, e);
    ListedTable(TableOf(out), left, k);
  }

  lemma ListedTable(t: Table, left: Db, k: Key)
    requires k in left
    ensures t + Values(left) == t[k := Value(left[k])] + Values(left - {k})
  {
  }

  lemma TableOfSnoc(out: seq<Entry>, e: Entry)
    ensures TableOf(out + [e]) == TableOf(out)[e.key := e.record]
  {
    assert (out + [e])[..|out|] == out;
  }

  lemma ListedEnd(db: Db, out: seq<Entry>)
    requires Listed(db, out, map[])
    ensures Ascending(out) && TableOf(out) == Values(db) && out == Listing(Values(db))
  {
    assert TableOf(out) + Values(map[]) == TableOf(out);
    AscendingUnique(out, Listing(Values(db)));
  }
}
