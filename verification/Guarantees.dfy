/** What the refinement and the invariant mean to a client: durability across
    crashes, linearizable reads, safe files, fresh names and no lost compaction
    request, each stated for every run of the engine. */
module Guarantees {
  import opened Bytes
  import opened Records
  import opened Protocol
  import opened Invariant
  import opened Steps
  import opened Recovery
  import opened Refinement

  // --------------------------------------------------------------- durability

  /** The history a client can work out from what it observed: acknowledged
      batches in order, without those a failed flush took; per crash, with the
      log, every batch logged since the last rotation and either the one in
      flight or not (`kept` says which), or, without it, exactly the batches up to
      the last committed flush. */
  function Surviving(durable: bool, labels: seq<Label>, kept: seq<bool>): Spec
    requires |kept| == |labels|
  {
    if labels == [] then Spec([], None, 0, [], map[])
    else
      var n := |labels| - 1;
      var p := Surviving(durable, labels[..n], kept[..n]);
      var left := if p.stable <= |p.ops| then p.ops[..p.stable] else p.ops;
      match labels[n]
      case Invoke(b) => p.(pending := Some(b))
      case Ack => p.(ops := p.ops + InFlight(p), logged := p.logged + InFlight(p), pending := None)
      case Commit => p.(stable := |p.ops + InFlight(p)|)
      case Rotated => p.(logged := p.ops)
      case Failed => p.(ops := left, pending := None, logged := if durable then p.logged + InFlight(p) else left)
      case Crashed =>
        var all := p.ops + InFlight(p);
        var found := if durable then (if kept[n] then p.logged + InFlight(p) else p.logged)
                     else if p.stable <= |all| then all[..p.stable] else all;
        p.(pending := None, ops := found, logged := found)
      case _ => p
  }

  lemma {:induction false} SpecIsObserved(durable: bool, labels: seq<Label>, specs: seq<Spec>, j: nat) returns (kept: seq<bool>)
    requires IsSpecRun(durable, labels, specs) && j < |specs|
    ensures |kept| == j && Surviving(durable, labels[..j], kept) == specs[j].(readers := map[])
  {
    if j == 0 {
      kept := [];
    } else {
      var before := SpecIsObserved(durable, labels, specs, j - 1);
      var p := specs[j - 1];
      assert SpecNext(durable, p, labels[j - 1], specs[j]);
      kept := before + [specs[j].ops != p.logged];
      assert labels[..j][..j - 1] == labels[..j - 1] && kept[..j - 1] == before;
    }
  }

  /** What a run stands for is what its observations say. */
  lemma HistoryIsObserved(c: Config, actions: seq<Action>, states: seq<State>, j: nat) returns (kept: seq<bool>)
    requires c.trigger >= 2 && IsRun(c, actions, states) && j < |states|
    ensures |kept| == j && Surviving(c.durable, LabelsOf(actions, states)[..j], kept) == Abs(states[j]).(readers := map[])
  {
    hide Abs, LabelOf, IsSpecRun, Surviving;
    EngineRefinesSpec(c, actions, states);
    kept := SpecIsObserved(c.durable, LabelsOf(actions, states), AbsAll(states), j);
  }

  /** No failed flush has taken anything that is still in the log. */
  predicate Intact(p: Spec) { p.logged == p.ops }

  lemma {:induction false} SpecGrows(labels: seq<Label>, specs: seq<Spec>, i: nat, j: nat)
    requires IsSpecRun(true, labels, specs) && i <= j < |specs| && Intact(specs[i])
    requires forall k :: i <= k < j ==> !labels[k].Failed?
    ensures specs[i].ops <= specs[j].ops && Intact(specs[j])
    decreases j
  {
    if i < j {
      SpecGrows(labels, specs, i, j - 1);
      assert SpecNext(true, specs[j - 1], labels[j - 1], specs[j]);
    }
  }

  /** With the log, and until a flush fails, the acknowledged batches only ever
      grow, whatever crashes come between. */
  lemma AckedBatchesSurvive(c: Config, actions: seq<Action>, states: seq<State>, i: nat, j: nat)
    requires c.trigger >= 2 && c.durable && IsRun(c, actions, states) && i <= j < |states|
    requires Intact(Abs(states[i])) && forall k :: i <= k < j ==> !actions[k].FailFlush?
    ensures Abs(states[i]).ops <= Abs(states[j]).ops && Intact(Abs(states[j]))
  {
    hide Abs, IsSpecRun;
    EngineRefinesSpec(c, actions, states);
    SpecGrows(LabelsOf(actions, states), AbsAll(states), i, j);
  }

  lemma {:induction false} SpecFlushed(durable: bool, labels: seq<Label>, specs: seq<Spec>, i: nat, j: nat)
    requires IsSpecRun(durable, labels, specs) && i <= j < |specs| && i < |labels| && labels[i] == Flushed
    ensures specs[i].ops <= specs[j].ops && specs[i].ops <= specs[j].logged && |specs[i].ops| <= specs[j].stable
    decreases j
  {
    if i == j {
      assert SpecNext(durable, specs[i], labels[i], specs[i + 1]);
    } else {
      SpecFlushed(durable, labels, specs, i, j - 1);
      assert SpecNext(durable, specs[j - 1], labels[j - 1], specs[j]);
    }
  }

  /** With or without the log, what an explicit flush has acknowledged survives
      every later crash and every later failed flush. */
  lemma FlushedBatchesSurvive(c: Config, actions: seq<Action>, states: seq<State>, i: nat, j: nat)
    requires c.trigger >= 2 && IsRun(c, actions, states) && i < |actions| && i <= j < |states|
    requires actions[i] == EndFlush && states[i].phase.Running? && states[i].phase.v.op.None?
    ensures Abs(states[i]).ops <= Abs(states[j]).ops && |Abs(states[i]).ops| <= states[j].h.base
  {
    hide IsSpecRun;
    EngineRefinesSpec(c, actions, states);
    SpecFlushed(c.durable, LabelsOf(actions, states), AbsAll(states), i, j);
  }

  /** A flush that finds an empty buffer has nothing to do: the committed runs show
      the whole database already, and a crash loses nothing unless a flush has
      failed since the last rotation. */
  lemma NothingToFlush(c: Config, actions: seq<Action>, states: seq<State>, i: nat)
    requires c.trigger >= 2 && IsRun(c, actions, states) && i < |states|
    requires states[i].phase.Running? && states[i].phase.v.writer.Free? && states[i].phase.v.mem == map[]
    ensures Fold(Committed(states[i].h)) == Fold(states[i].h.shown)
    ensures states[i].phase.v.lost == map[] ==> Fold(Recovered(c, states[i].h)) == Fold(states[i].h.shown)
  {
    hide View, Fold, Contents, CompInv, FlushInv, SidecarsInv;
    RunInvariant(c, actions, states, i);
    var none: Table := map[];
    assert none + none == none;
  }

  /** Whenever the lock is free, the engine shows the fold of its history. */
  lemma OpenEngineShowsHistory(c: Config, actions: seq<Action>, states: seq<State>, i: nat)
    requires c.trigger >= 2 && IsRun(c, actions, states) && i < |states|
    requires states[i].phase.Running? && states[i].phase.v.writer.Free?
    ensures SessionView(states[i].disk, states[i].phase.v) == Fold(Abs(states[i]).ops)
  {
    hide View, Fold, Contents;
    RunInvariant(c, actions, states, i);
  }

  /** Crash safety, end to end: an engine found open and idle, after any schedule,
      any number of crashes and any number of failed flushes, shows the fold of
      the observed history. */
  lemma CrashSafety(c: Config, actions: seq<Action>, states: seq<State>, j: nat)
    requires c.trigger >= 2 && IsRun(c, actions, states) && j < |states|
    requires states[j].phase.Running? && states[j].phase.v.writer.Free?
    ensures exists kept: seq<bool> | |kept| == j ::
              SessionView(states[j].disk, states[j].phase.v)
              == Fold(Surviving(c.durable, LabelsOf(actions, states)[..j], kept).ops)
  {
    hide SessionView, Fold, Abs, LabelOf, Surviving;
    OpenEngineShowsHistory(c, actions, states, j);
    var kept := HistoryIsObserved(c, actions, states, j);
  }

  // ------------------------------------------------------ single writes, by key

  /** Some write called at a step from `i` up to `j` has this batch. */
  predicate Called(labels: seq<Label>, i: nat, j: nat, b: Batch)
    requires j <= |labels|
  {
    exists k :: i <= k < j && labels[k] == Invoke(b)
  }

  /** Everything past the first `n` batches has been called from step `i` on. */
  predicate NewAreCalled(labels: seq<Label>, i: nat, j: nat, n: nat, p: Spec)
    requires j <= |labels|
  {
    && (forall q :: n <= q < |p.ops| ==> Called(labels, i, j, p.ops[q]))
    && (forall q :: n <= q < |p.logged| ==> Called(labels, i, j, p.logged[q]))
    && (p.pending.Some? ==> Called(labels, i, j, p.pending.value))
  }

  lemma {:induction false} HistoryIsCalled(durable: bool, labels: seq<Label>, specs: seq<Spec>, i: nat, j: nat)
    requires IsSpecRun(durable, labels, specs) && i <= j < |specs|
    requires specs[i].pending.None? && |specs[i].logged| <= |specs[i].ops|
    ensures NewAreCalled(labels, i, j, |specs[i].ops|, specs[j])
    decreases j
  {
    hide SpecNext;
    if i < j {
      HistoryIsCalled(durable, labels, specs, i, j - 1);
      assert SpecNext(durable, specs[j - 1], labels[j - 1], specs[j]);
      CalledStep(durable, labels, i, j - 1, |specs[i].ops|, specs[j - 1], specs[j]);
    }
  }

  lemma CalledStep(durable: bool, labels: seq<Label>, i: nat, j: nat, n: nat, p: Spec, p': Spec)
    requires i <= j < |labels| && NewAreCalled(labels, i, j, n, p) && SpecNext(durable, p, labels[j], p')
    ensures NewAreCalled(labels, i, j + 1, n, p')
  {
    hide Called;
    forall b | Called(labels, i, j, b) ensures Called(labels, i, j + 1, b) { CalledLater(labels, i, j, b); }
    if labels[j].Invoke? { CalledNow(labels, i, j); }
  }

  lemma CalledLater(labels: seq<Label>, i: nat, j: nat, b: Batch)
    requires j < |labels| && Called(labels, i, j, b)
    ensures Called(labels, i, j + 1, b)
  {
  }

  lemma CalledNow(labels: seq<Label>, i: nat, j: nat)
    requires i <= j < |labels| && labels[j].Invoke?
    ensures Called(labels, i, j + 1, labels[j].batch)
  {
  }

  /** No write called at a step from `i` up to `j` touches the key. */
  predicate Untouched(actions: seq<Action>, i: nat, j: nat, key: Key)
    requires j <= |actions|
  {
    forall k, x :: i <= k < j && actions[k].BeginWrite? && 0 <= x < |actions[k].batch| ==> actions[k].batch[x].key != key
  }

  /** As long as nobody touches its key, the last write to it stays the last. */
  lemma StaysLast(actions: seq<Action>, labels: seq<Label>, i: nat, j: nat, before: seq<Batch>, after: Spec, b: nat, x: nat)
    requires |labels| == |actions| && j <= |actions| && LastOf(before, b, x) && before <= after.ops
    requires NewAreCalled(labels, i, j, |before|, after) && Untouched(actions, i, j, before[b][x].key)
    requires forall k :: 0 <= k < |actions| && labels[k].Invoke? ==> actions[k] == BeginWrite(labels[k].batch)
    ensures LastOf(after.ops, b, x)
  {
    forall c, y | b < c < |after.ops| && 0 <= y < |after.ops[c]| ensures after.ops[c][y].key != before[b][x].key {
      if c >= |before| {
        assert Called(labels, i, j, after.ops[c]);
      }
    }
  }

  /** The database answers for the key as the record does. */
  predicate Answers(db: Db, key: Key, record: Record) {
    (key in db <==> record.Value?) && (record.Value? ==> db[key] == record.value)
  }

  /** An idle session shows the last write of its history to every key. */
  lemma ShowsLast(c: Config, actions: seq<Action>, states: seq<State>, j: nat, b: nat, x: nat)
    requires c.trigger >= 2 && IsRun(c, actions, states) && j < |states|
    requires states[j].phase.Running? && states[j].phase.v.writer.Free? && LastOf(Abs(states[j]).ops, b, x)
    ensures var e := Abs(states[j]).ops[b][x]; Answers(SessionView(states[j].disk, states[j].phase.v), e.key, e.record)
  {
    hide SessionView, Fold, Abs;
    OpenEngineShowsHistory(c, actions, states, j);
    LastWriteInHistory(Abs(states[j]).ops, b, x);
  }

  /** With the log, and if no flush fails: a write that has been acknowledged is what
      every later idle moment shows for its keys, across any crashes, flushes and
      compactions, as long as no later write touches them. */
  lemma AckedWriteIsRead(c: Config, actions: seq<Action>, states: seq<State>, e: nat, batch: Batch, x: nat, j: nat)
    requires c.trigger >= 2 && c.durable && IsRun(c, actions, states) && e < j < |states|
    requires states[e].phase.Running? && states[e].phase.v.op == Some(batch) && (actions[e].EndWrite? || actions[e].EndFlush?)
    requires x < |batch| && forall y :: x < y < |batch| ==> batch[y].key != batch[x].key
    requires Untouched(actions, e + 1, j, batch[x].key) && forall k :: 0 <= k < j ==> !actions[k].FailFlush?
    requires states[j].phase.Running? && states[j].phase.v.writer.Free?
    ensures Answers(SessionView(states[j].disk, states[j].phase.v), batch[x].key, batch[x].record)
  {
    hide SessionView, Fold, Abs, IsSpecRun, NewAreCalled, Untouched, LabelOf, LastOf, Answers, SpecNext;
    var labels, specs := LabelsOf(actions, states), AbsAll(states);
    EngineRefinesSpec(c, actions, states);
    AckedBatchesSurvive(c, actions, states, 0, e + 1);
    AckedBatchesSurvive(c, actions, states, e + 1, j);
    AckAppends(c, actions, states, e, batch);
    var ops := Abs(states[e + 1]).ops;
    AppendedIsLast(ops, batch, x);
    HistoryIsCalled(true, labels, specs, e + 1, j);
    InvokeIsBegin(actions, states);
    StaysLast(actions, labels, e + 1, j, ops, Abs(states[j]), |ops| - 1, x);
    ShowsLast(c, actions, states, j, |ops| - 1, x);
  }

  lemma AckAppends(c: Config, actions: seq<Action>, states: seq<State>, e: nat, batch: Batch)
    requires c.trigger >= 2 && IsRun(c, actions, states) && e < |actions|
    requires states[e].phase.Running? && states[e].phase.v.op == Some(batch) && (actions[e].EndWrite? || actions[e].EndFlush?)
    ensures Abs(states[e + 1]).pending.None? && Abs(states[e + 1]).ops == Abs(states[e]).ops + [batch]
  {
    hide IsSpecRun;
    EngineRefinesSpec(c, actions, states);
    assert SpecNext(c.durable, Abs(states[e]), LabelOf(states[e], actions[e]), Abs(states[e + 1])) by { SpecStepAt(c, actions, states, e); }
  }

  lemma SpecStepAt(c: Config, actions: seq<Action>, states: seq<State>, e: nat)
    requires |states| == |actions| + 1 && e < |actions| && IsSpecRun(c.durable, LabelsOf(actions, states), AbsAll(states))
    ensures SpecNext(c.durable, Abs(states[e]), LabelOf(states[e], actions[e]), Abs(states[e + 1]))
  {
    hide SpecNext, Abs, LabelOf;
    assert SpecNext(c.durable, AbsAll(states)[e], LabelsOf(actions, states)[e], AbsAll(states)[e + 1]);
  }

  lemma AppendedIsLast(ops: seq<Batch>, batch: Batch, x: nat)
    requires ops != [] && ops[|ops| - 1] == batch && x < |batch| && forall y :: x < y < |batch| ==> batch[y].key != batch[x].key
    ensures LastOf(ops, |ops| - 1, x)
  {
  }

  lemma InvokeIsBegin(actions: seq<Action>, states: seq<State>)
    requires |states| == |actions| + 1
    ensures |LabelsOf(actions, states)| == |actions|
    ensures forall k :: 0 <= k < |actions| && LabelsOf(actions, states)[k].Invoke? ==> actions[k] == BeginWrite(LabelsOf(actions, states)[k].batch)
  {
  }

  /** With or without the log: the last write to a key before an explicit flush
      returned is what every later idle moment shows for it, across any crashes and
      any failed flushes, as long as no later write touches the key. */
  lemma FlushedWriteIsRead(c: Config, actions: seq<Action>, states: seq<State>, i: nat, b: nat, x: nat, j: nat)
    requires c.trigger >= 2 && IsRun(c, actions, states) && i < |actions| && i <= j < |states|
    requires actions[i] == EndFlush && states[i].phase.Running? && states[i].phase.v.op.None? && LastOf(Abs(states[i]).ops, b, x)
    requires Untouched(actions, i, j, Abs(states[i]).ops[b][x].key)
    requires states[j].phase.Running? && states[j].phase.v.writer.Free?
    ensures var e := Abs(states[i]).ops[b][x]; Answers(SessionView(states[j].disk, states[j].phase.v), e.key, e.record)
  {
    hide SessionView, Fold, Abs, IsSpecRun, NewAreCalled, Untouched, LabelOf, LastOf, Answers, SpecNext;
    var labels, specs := LabelsOf(actions, states), AbsAll(states);
    EngineRefinesSpec(c, actions, states);
    FlushedBatchesSurvive(c, actions, states, i, j);
    FlushedIsSettled(c, actions, states, i);
    HistoryIsCalled(c.durable, labels, specs, i, j);
    InvokeIsBegin(actions, states);
    StaysLast(actions, labels, i, j, Abs(states[i]).ops, Abs(states[j]), b, x);
    assert LastOf(Abs(states[j]).ops, b, x) && Abs(states[j]).ops[b] == Abs(states[i]).ops[b] by { InBoth(Abs(states[i]).ops, Abs(states[j]).ops, b, x); }
    ShowsLast(c, actions, states, j, b, x);
  }

  lemma InBoth(before: seq<Batch>, after: seq<Batch>, b: nat, x: nat)
    requires before <= after && LastOf(before, b, x)
    ensures b < |before| && after[b] == before[b]
  {
  }

  lemma FlushedIsSettled(c: Config, actions: seq<Action>, states: seq<State>, i: nat)
    requires c.trigger >= 2 && IsRun(c, actions, states) && i < |actions|
    requires actions[i] == EndFlush && states[i].phase.Running? && states[i].phase.v.op.None?
    ensures Abs(states[i]).pending.None? && Abs(states[i]).logged == Abs(states[i]).ops
  {
    hide IsSpecRun;
    EngineRefinesSpec(c, actions, states);
    SpecStepAt(c, actions, states, i);
  }

  // -------------------------------------------------------------------- reads

  lemma {:induction false} ReaderKept(durable: bool, labels: seq<Label>, specs: seq<Spec>, i: nat, j: nat, id: nat, db: Db)
    requires IsSpecRun(durable, labels, specs) && i <= j < |specs|
    requires id in specs[i].readers && specs[i].readers[id] == db
    requires forall k :: i <= k < j ==> !labels[k].Crashed? && !(labels[k].Answer? && labels[k].id == id)
    ensures id in specs[j].readers && specs[j].readers[id] == db
    decreases j
  {
    if i < j {
      ReaderKept(durable, labels, specs, i, j - 1, id, db);
      assert SpecNext(durable, specs[j - 1], labels[j - 1], specs[j]);
    }
  }

  /** A read answers with the database of the instant it began, whatever is
      written, flushed, swapped or deleted before it ends. */
  lemma ReadsAreSnapshots(c: Config, actions: seq<Action>, states: seq<State>, i: nat, j: nat, id: nat)
    requires c.trigger >= 2 && IsRun(c, actions, states) && i < j < |actions|
    requires actions[i] == BeginRead(id) && actions[j] == EndRead(id)
    requires forall k :: i < k < j ==> !actions[k].Crash? && actions[k] != EndRead(id)
    ensures states[i].phase.Running? && states[j].phase.Running? && id in states[j].phase.v.readers
    ensures ReaderView(states[j].disk, states[j].phase.v.readers[id]) == SessionView(states[i].disk, states[i].phase.v)
  {
    hide IsSpecRun, EnabledIn, DoIn, DoHistory, SessionView, Fold, View, Contents;
    EngineRefinesSpec(c, actions, states);
    var labels, specs := LabelsOf(actions, states), AbsAll(states);
    ReadBegins(c, actions, states, i, id);
    forall k | i < k < j ensures !labels[k].Crashed? && !(labels[k].Answer? && labels[k].id == id) { }
    ReaderKept(c.durable, labels, specs, i + 1, j, id, SessionView(states[i].disk, states[i].phase.v));
    ReadEnds(c, actions, states, j, id);
  }

  lemma ReadBegins(c: Config, actions: seq<Action>, states: seq<State>, i: nat, id: nat)
    requires c.trigger >= 2 && IsRun(c, actions, states) && i < |actions| && actions[i] == BeginRead(id)
    ensures states[i].phase.Running?
    ensures var readers := Abs(states[i + 1]).readers;
            id in readers && readers[id] == SessionView(states[i].disk, states[i].phase.v)
  {
    hide View, Fold, Contents;
    assert Enabled(c, states[i], actions[i]) && states[i + 1] == Do(c, states[i], actions[i]);
  }

  lemma ReadEnds(c: Config, actions: seq<Action>, states: seq<State>, j: nat, id: nat)
    requires IsRun(c, actions, states) && j < |actions| && actions[j] == EndRead(id)
    ensures states[j].phase.Running? && id in states[j].phase.v.readers
    ensures Abs(states[j]).readers[id] == ReaderView(states[j].disk, states[j].phase.v.readers[id])
  {
    hide View, Fold, Contents;
    assert Enabled(c, states[j], actions[j]);
  }

  // -------------------------------------------------------------------- files

  /** Recovery never finds a named run missing, and no run that the live list, a
      reader or a compaction holds ever loses its file. */
  lemma FilesAreSafe(c: Config, actions: seq<Action>, states: seq<State>, i: nat)
    requires c.trigger >= 2 && IsRun(c, actions, states) && i < |states|
    ensures Present(states[i].disk.runs, LiveRuns(states[i].disk))
    ensures states[i].phase.Down? ==> Enabled(c, states[i], Load)
    ensures states[i].phase.Running? ==>
      var v := states[i].phase.v;
      && Present(states[i].disk.runs, v.runs) && Present(states[i].disk.runs, InputsOf(v.comp))
      && forall id :: id in v.readers ==> EnabledIn(c, states[i].disk, v, EndRead(id))
  {
    hide View, Fold, Contents, HistoryInv, BaseInv, LogInv, CompInv, SidecarsInv;
    RunInvariant(c, actions, states, i);
    var s := states[i];
    if s.phase.Running? {
      LivePresent(c, s.disk, s.phase.v, s.h);
    }
  }

  /** A run installed under a new name overwrites nothing: neither run nor
      sidecar of that name exists, and no list mentions it. */
  lemma NamesAreFresh(c: Config, actions: seq<Action>, states: seq<State>, i: nat, who: Who)
    requires c.trigger >= 2 && IsRun(c, actions, states) && i < |actions| && actions[i] == InstallRun(who)
    ensures var s := states[i];
            && s.phase.Running? && BuildOf(s.phase.v, who).Some?
            && var num := BuildOf(s.phase.v, who).value.num;
               && num !in s.disk.runs && num !in s.disk.sidecars
               && num !in LiveRuns(s.disk) && num !in s.phase.v.runs
  {
    hide View, Fold, Contents, HistoryInv, BaseInv, LogInv, ManifestInv, SidecarsInv, ListInv, Compacted;
    RunInvariant(c, actions, states, i);
    var s := states[i];
    assert Enabled(c, s, actions[i]);
    LivePresent(c, s.disk, s.phase.v, s.h);
  }

  /** Where a filter sits beside a run, it knows every key of that run. */
  lemma FiltersAreComplete(c: Config, actions: seq<Action>, states: seq<State>, i: nat, run: nat)
    requires c.trigger >= 2 && IsRun(c, actions, states) && i < |states|
    requires run in states[i].disk.sidecars && run in states[i].disk.runs
    ensures states[i].disk.runs[run].Keys <= states[i].disk.sidecars[run]
  {
    hide View, Fold, Contents, HistoryInv, BaseInv, LogInv, ManifestInv, CompInv, ListInv, FlushInv;
    RunInvariant(c, actions, states, i);
  }

  /** What recovery makes of a directory: only the runs the manifest names and
      their sidecars stay. */
  function Reclaimed(d: Disk): Disk {
    var live := LiveRuns(d);
    d.(runs := map x | x in d.runs && x in live :: d.runs[x],
       sidecars := map x | x in d.sidecars && x in live :: d.sidecars[x],
       temps := Temps(map[], map[], None))
  }

  /** The scan has deleted exactly what it has visited and may not keep. */
  predicate RunsProgress(d0: Disk, d: Disk, live: seq<nat>, todo: set<DirEntry>) {
    && d.runs == (map x | x in d0.runs && (x in live || RunEntry(x) in todo) :: d0.runs[x])
    && d.sidecars == (map x | x in d0.sidecars && (x in live || SidecarEntry(x) in todo) :: d0.sidecars[x])
  }

  predicate TempsProgress(t0: Temps, t: Temps, todo: set<DirEntry>) {
    && t.runs == (map x | x in t0.runs && RunTmpEntry(x) in todo :: t0.runs[x])
    && t.sidecars == (map x | x in t0.sidecars && SidecarTmpEntry(x) in todo :: t0.sidecars[x])
    && t.manifest == if ManifestTmpEntry in todo then t0.manifest else None
  }

  predicate ScanProgress(d0: Disk, s: State) {
    && s.phase.Scanning? && s.phase.live == LiveRuns(d0)
    && s.disk.manifest == d0.manifest && s.disk.log == d0.log
    && RunsProgress(d0, s.disk, s.phase.live, s.phase.todo)
    && TempsProgress(d0.temps, s.disk.temps, s.phase.todo)
  }

  lemma ScanProgressStep(d0: Disk, s: State, e: DirEntry)
    requires ScanProgress(d0, s) && e in s.phase.todo
    ensures ScanProgress(d0, DoScan(s, e))
  {
    hide TempsProgress, RunsProgress;
    RunsProgressStep(d0, s, e);
    TempsProgressStep(d0, s, e);
  }

  lemma RunsProgressStep(d0: Disk, s: State, e: DirEntry)
    requires ScanProgress(d0, s) && e in s.phase.todo
    ensures var s' := DoScan(s, e); RunsProgress(d0, s'.disk, s'.phase.live, s'.phase.todo)
  {
    hide TempsProgress;
  }

  lemma TempsProgressStep(d0: Disk, s: State, e: DirEntry)
    requires ScanProgress(d0, s) && e in s.phase.todo
    ensures var s' := DoScan(s, e); TempsProgress(d0.temps, s'.disk.temps, s'.phase.todo)
  {
    hide RunsProgress;
  }

  lemma ScanBegins(d0: Disk, h: History)
    ensures ScanProgress(d0, State(d0, DoLoad(d0), h))
  {
  }

  lemma ScanEnds(d0: Disk, s: State)
    requires ScanProgress(d0, s) && s.phase.todo == {}
    ensures s.disk == Reclaimed(d0)
  {
  }

  /** Visiting the directory in any order reclaims the same files. */
  lemma {:induction false} ScanReclaims(c: Config, actions: seq<Action>, states: seq<State>, i: nat, j: nat)
    requires IsRun(c, actions, states) && i < j < |states| && states[i].phase.Down? && states[j].phase.Scanning?
    requires forall k :: i < k < j ==> actions[k].ScanEntry?
    ensures ScanProgress(states[i].disk, states[j])
    ensures states[j].phase.todo == {} ==> states[j].disk == Reclaimed(states[i].disk)
    decreases j
  {
    hide ScanProgress, Reclaimed, DoScan, DoLoad, EnabledIn, DoIn;
    var d0, s := states[i].disk, states[j - 1];
    assert Enabled(c, s, actions[j - 1]) && states[j] == Do(c, s, actions[j - 1]);
    if j == i + 1 {
      ScanBegins(d0, s.h);
    } else {
      assert s.phase.Scanning?;
      ScanReclaims(c, actions, states, i, j - 1);
      ScanProgressStep(d0, s, actions[j - 1].entry);
    }
    if states[j].phase.todo == {} { ScanEnds(d0, states[j]); }
  }

  // --------------------------------------------------------------- the buffer

  /** Whenever the lock is free, the log replays to the buffer over whatever failed
      flushes took, and the buffer is empty or below capacity. */
  lemma BufferMatchesLog(c: Config, actions: seq<Action>, states: seq<State>, i: nat)
    requires c.trigger >= 2 && IsRun(c, actions, states) && i < |states|
    requires states[i].phase.Running? && states[i].phase.v.writer.Free?
    ensures c.durable ==> LogTable(states[i].disk.log) == states[i].phase.v.lost + states[i].phase.v.mem
    ensures !Full(c, states[i].phase.v.mem)
  {
    hide View, Fold, Contents, HistoryInv, BaseInv, ManifestInv, CompInv, ListInv, FlushInv, LogTable, Full;
    RunInvariant(c, actions, states, i);
  }

  // --------------------------------------------------------------- compaction

  /** While a compaction is in flight its inputs are the oldest suffix of the live
      list, and its swap leaves the runs flushed since and the output. */
  lemma CompactionInputsStayOldest(c: Config, actions: seq<Action>, states: seq<State>, i: nat)
    requires c.trigger >= 2 && IsRun(c, actions, states) && i < |states|
    requires states[i].phase.Running? && (states[i].phase.v.comp.Inputs? || states[i].phase.v.comp.Output?)
    ensures var v := states[i].phase.v;
            var n := |v.runs| - |v.comp.inputs|;
            && 0 <= n && v.runs[n..] == v.comp.inputs
            && (v.comp.Output? && Built(v.comp.b) ==>
                  && Swapped(v.runs, v.comp.inputs, v.comp.b.num) == v.runs[..n] + [v.comp.b.num]
                  && forall mem :: View(mem, Contents(states[i].disk.runs, v.runs[..n] + [v.comp.b.num]))
                                == View(mem, Contents(states[i].disk.runs, v.runs)))
  {
    hide View, Fold, Contents, HistoryInv, BaseInv, ManifestInv, LogInv, FlushInv;
    RunInvariant(c, actions, states, i);
    var s := states[i];
    if s.phase.v.comp.Output? && Built(s.phase.v.comp.b) {
      SwapIsInvisible(s.disk, s.phase.v);
    }
  }

  /** Nothing since a step has answered for a request: no flush has ended, no
      compaction has begun, and the session is the same. */
  predicate Unanswered(actions: seq<Action>, j: nat, i: nat)
    requires i <= |actions|
  {
    forall k :: j < k < i ==> !actions[k].EndFlush? && !actions[k].StartCompaction? && !actions[k].Crash?
  }

  /** The last compaction failed with the list at the trigger, and nothing since has
      answered for its request. */
  predicate RequestLost(c: Config, actions: seq<Action>, states: seq<State>, i: nat)
    requires |states| == |actions| + 1 && i <= |actions|
  {
    exists j :: 0 <= j < i && actions[j] == FailCompaction && Unanswered(actions, j, i)
                && states[j].phase.Running? && |states[j].phase.v.runs| >= c.trigger
  }

  /** A session is stalled exactly after a failure nothing has answered for. */
  lemma {:induction false} StalledByFailure(c: Config, actions: seq<Action>, states: seq<State>, i: nat) returns (j: nat)
    requires IsRun(c, actions, states) && i < |states| && states[i].phase.Running? && states[i].phase.v.stalled
    ensures j < i && actions[j] == FailCompaction && Unanswered(actions, j, i)
  {
    hide EnabledIn, DoIn, DoHistory, DoOpenLog;
    assert i > 0;
    var s, a := states[i - 1], actions[i - 1];
    assert Enabled(c, s, a) && states[i] == Do(c, s, a);
    if a == FailCompaction {
      j := i - 1;
    } else if s.phase.Running? {
      StallKept(c, s.disk, s.phase.v, a);
      j := StalledByFailure(c, actions, states, i - 1);
    } else {
      OpensUnstalled(c, s);
      assert false;
    }
  }

  lemma OpensUnstalled(c: Config, s: State)
    requires s.phase.Scanning?
    ensures DoOpenLog(c, s).phase.Running? && !DoOpenLog(c, s).phase.v.stalled
  {
  }

  lemma StallKept(c: Config, d: Disk, v: Session, a: Action)
    requires EnabledIn(c, d, v, a) && DoIn(c, d, v, a).1.stalled && a != FailCompaction
    ensures v.stalled && !a.EndFlush? && !a.StartCompaction? && !a.Crash?
  {
    hide Full, Present, Swapped, ApplyAll, BuildOf, DoWriteRunTmp, DoInstallRun, DoWriteSidecarTmp, DoInstallSidecar;
    if OnFiles(a) { BuildUntouched(c, d, v, a); }
  }

  /** A published run whose flush has not ended, or the list as it was. */
  predicate Stands(w: Writer, comp: Compaction, runs: seq<nat>, before: seq<nat>) {
    (comp.Done? || comp.Idle?) && (w.FlushPublished? || w.FlushUnlogged? || runs == before)
  }

  lemma StandsStep(c: Config, d: Disk, v: Session, a: Action, before: seq<nat>)
    requires EnabledIn(c, d, v, a) && !a.EndFlush? && !a.StartCompaction? && Stands(v.writer, v.comp, v.runs, before)
    ensures var v' := DoIn(c, d, v, a).1;
            Stands(v'.writer, v'.comp, v'.runs, before) && v'.pending == v.pending
  {
    hide Full, Present, Swapped, ApplyAll, SetBuild, DoWriteRunTmp, DoInstallRun, DoWriteSidecarTmp, DoInstallSidecar;
    if OnFiles(a) {
      BuildUntouched(c, d, v, a);
      FlusherOnly(c, d, v, a);
    }
  }

  lemma FlusherOnly(c: Config, d: Disk, v: Session, a: Action)
    requires OnFiles(a) && EnabledIn(c, d, v, a) && !v.comp.Output?
    ensures DoIn(c, d, v, a).1.comp == v.comp
  {
    hide Present, Contents, Compacted, RunOf;
    assert a.who == Flusher;
  }

  /** From a failed compaction to the next idle moment nothing has answered for, the
      list and the requests stand still. */
  lemma {:induction false} ListStands(c: Config, actions: seq<Action>, states: seq<State>, j: nat, i: nat)
    requires IsRun(c, actions, states) && j < i < |states| && actions[j] == FailCompaction && Unanswered(actions, j, i)
    ensures states[j].phase.Running? && states[i].phase.Running?
    ensures var v, v' := states[j].phase.v, states[i].phase.v;
            Stands(v'.writer, v'.comp, v'.runs, v.runs) && v'.pending == v.pending
    decreases i
  {
    hide EnabledIn, DoIn, DoHistory, Stands;
    var s, a := states[i - 1], actions[i - 1];
    assert Enabled(c, s, a) && states[i] == Do(c, s, a);
    if i == j + 1 {
      FailedStands(c, s.disk, s.phase.v);
    } else {
      ListStands(c, actions, states, j, i - 1);
      StandsStep(c, s.disk, s.phase.v, a, states[j].phase.v.runs);
    }
  }

  lemma FailedStands(c: Config, d: Disk, v: Session)
    requires EnabledIn(c, d, v, FailCompaction)
    ensures var v' := DoIn(c, d, v, FailCompaction).1;
            Stands(v'.writer, v'.comp, v'.runs, v.runs) && v'.pending == v.pending
  {
  }

  /** Once a flush has succeeded in the session, a compactor with nothing pending
      and nothing running means fewer runs than the trigger, exactly unless the last
      compaction failed with the list at the trigger and nothing has answered for
      its request since. */
  lemma NoLostCompaction(c: Config, actions: seq<Action>, states: seq<State>, i: nat)
    requires c.trigger >= 2 && IsRun(c, actions, states) && i < |states|
    requires states[i].phase.Running?
    requires var v := states[i].phase.v; v.flushed && !v.pending && v.comp.Idle? && v.writer.Free?
    ensures |states[i].phase.v.runs| < c.trigger <==> !RequestLost(c, actions, states, i)
  {
    hide Unanswered, Enabled, Do, Stands;
    if |states[i].phase.v.runs| >= c.trigger {
      IdleOverTrigger(c, actions, states, i);
      var j := StalledByFailure(c, actions, states, i);
      ListStands(c, actions, states, j, i);
      FreeStands(states[i].phase.v, states[j].phase.v.runs);
    }
    if RequestLost(c, actions, states, i) {
      var j :| 0 <= j < i && actions[j] == FailCompaction && Unanswered(actions, j, i)
               && states[j].phase.Running? && |states[j].phase.v.runs| >= c.trigger;
      ListStands(c, actions, states, j, i);
      FreeStands(states[i].phase.v, states[j].phase.v.runs);
    }
  }

  lemma FreeStands(v: Session, before: seq<nat>)
    requires v.writer.Free? && Stands(v.writer, v.comp, v.runs, before)
    ensures v.runs == before
  {
  }

  lemma IdleOverTrigger(c: Config, actions: seq<Action>, states: seq<State>, i: nat)
    requires c.trigger >= 2 && IsRun(c, actions, states) && i < |states| && states[i].phase.Running?
    requires var v := states[i].phase.v; v.flushed && !v.pending && v.comp.Idle? && v.writer.Free? && |v.runs| >= c.trigger
    ensures states[i].phase.v.stalled
  {
    hide View, Fold, Contents, HistoryInv, BaseInv, ManifestInv, LogInv, FlushInv, ListInv, CompInv;
    RunInvariant(c, actions, states, i);
  }

  /** A flush that ended at step `j`, with no compaction begun and no crash since,
      has asked for a compaction: it left the runs at the trigger or above. */
  predicate Asked(c: Config, actions: seq<Action>, states: seq<State>, j: nat, i: nat)
    requires |states| == |actions| + 1 && i <= |actions|
  {
    && j < i && actions[j].EndFlush? && states[j].phase.Running? && |states[j].phase.v.runs| >= c.trigger
    && forall k :: j < k < i ==> !actions[k].StartCompaction? && !actions[k].Crash?
  }

  /** A compaction is requested exactly if some flush has asked for one. */
  lemma {:induction false} RequestedExactly(c: Config, actions: seq<Action>, states: seq<State>, i: nat)
    requires IsRun(c, actions, states) && i < |states| && states[i].phase.Running?
    ensures states[i].phase.v.pending <==> exists j: nat :: Asked(c, actions, states, j, i)
  {
    hide EnabledIn, DoIn, DoHistory, DoOpenLog;
    assert i > 0;
    var p := i - 1;
    var s, a := states[p], actions[p];
    assert Enabled(c, s, a) && states[i] == Do(c, s, a);
    if s.phase.Running? {
      RequestedExactly(c, actions, states, p);
      RequestStep(c, s.disk, s.phase.v, a);
      if j: nat :| Asked(c, actions, states, j, p) { assert a.StartCompaction? || Asked(c, actions, states, j, i); }
      if j: nat :| Asked(c, actions, states, j, i) { assert j == p || Asked(c, actions, states, j, p); }
      if a.EndFlush? && |s.phase.v.runs| >= c.trigger { assert Asked(c, actions, states, p, i); }
    } else {
      OpensUnasked(c, s);
      if j: nat :| Asked(c, actions, states, j, i) { StaysRunning(c, actions, states, j, p); }
    }
  }

  lemma RequestStep(c: Config, d: Disk, v: Session, a: Action)
    requires EnabledIn(c, d, v, a)
    ensures DoIn(c, d, v, a).1.pending
            == if a.StartCompaction? then false else if a.EndFlush? then v.pending || |v.runs| >= c.trigger else v.pending
  {
    hide Full, Present, Swapped, ApplyAll, BuildOf, DoWriteRunTmp, DoInstallRun, DoWriteSidecarTmp, DoInstallSidecar;
    if OnFiles(a) { BuildUntouched(c, d, v, a); }
  }

  lemma OpensUnasked(c: Config, s: State)
    requires s.phase.Scanning?
    ensures DoOpenLog(c, s).phase.Running? && !DoOpenLog(c, s).phase.v.pending && !DoOpenLog(c, s).phase.v.flushed
  {
  }

  /** Only a crash ends a session. */
  lemma {:induction false} StaysRunning(c: Config, actions: seq<Action>, states: seq<State>, j: nat, i: nat)
    requires IsRun(c, actions, states) && j <= i < |states| && states[j].phase.Running? && forall k :: j <= k < i ==> !actions[k].Crash?
    ensures states[i].phase.Running?
    decreases i
  {
    hide EnabledIn, DoIn, DoHistory, DoOpenLog;
    if i > j {
      StaysRunning(c, actions, states, j, i - 1);
      assert Enabled(c, states[i - 1], actions[i - 1]) && states[i] == Do(c, states[i - 1], actions[i - 1]);
    }
  }

  /** A flush that ended at step `j` of this session. */
  predicate EndedSince(actions: seq<Action>, j: nat, i: nat)
    requires i <= |actions|
  {
    j < i && actions[j].EndFlush? && forall k :: j < k < i ==> !actions[k].Crash?
  }

  /** A session counts as flushed exactly once one of its flushes has ended. */
  lemma {:induction false} FlushedExactly(c: Config, actions: seq<Action>, states: seq<State>, i: nat)
    requires IsRun(c, actions, states) && i < |states| && states[i].phase.Running?
    ensures states[i].phase.v.flushed <==> exists j: nat :: EndedSince(actions, j, i)
  {
    hide EnabledIn, DoIn, DoHistory, DoOpenLog;
    assert i > 0;
    var p := i - 1;
    var s, a := states[p], actions[p];
    assert Enabled(c, s, a) && states[i] == Do(c, s, a);
    if s.phase.Running? {
      FlushedExactly(c, actions, states, p);
      FlushedStep(c, s.disk, s.phase.v, a);
      if j: nat :| EndedSince(actions, j, p) { assert EndedSince(actions, j, i); }
      if j: nat :| EndedSince(actions, j, i) { assert j == p || EndedSince(actions, j, p); }
      if a.EndFlush? { assert EndedSince(actions, p, i); }
    } else {
      OpensUnasked(c, s);
      if j: nat :| EndedSince(actions, j, i) {
        EndsRunning(c, actions, states, j);
        StaysRunning(c, actions, states, j, p);
      }
    }
  }

  lemma EndsRunning(c: Config, actions: seq<Action>, states: seq<State>, j: nat)
    requires IsRun(c, actions, states) && j < |actions| && actions[j].EndFlush?
    ensures states[j].phase.Running?
  {
    hide EnabledIn, Do;
    assert Enabled(c, states[j], actions[j]);
  }

  lemma FlushedStep(c: Config, d: Disk, v: Session, a: Action)
    requires EnabledIn(c, d, v, a)
    ensures DoIn(c, d, v, a).1.flushed == (v.flushed || a.EndFlush?) && !a.Crash?
  {
    hide Full, Present, Swapped, ApplyAll, BuildOf, DoWriteRunTmp, DoInstallRun, DoWriteSidecarTmp, DoInstallSidecar;
    if OnFiles(a) { BuildUntouched(c, d, v, a); }
  }
}
