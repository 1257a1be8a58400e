/** Runs that show where a promise stops: an acknowledged write lost after a failed
    flush, and a compaction request lost with a trigger below 2 or after a failed
    compaction. */
module Witnesses {
  import opened Bytes
  import opened Records
  import opened Sizes
  import opened Protocol
  import opened Refinement
  import opened Guarantees

  /** A run that ends in a running session. */
  ghost predicate Ends(c: Config, actions: seq<Action>, states: seq<State>, d: Disk, v: Session, h: History) {
    IsRun(c, actions, states) && Last(states) == State(d, Running(v), h)
  }

  /** One step of a session, its outcome spelled out. */
  lemma Step(c: Config, actions: seq<Action>, states: seq<State>, d: Disk, v: Session, h: History, a: Action, d': Disk, v': Session)
    requires Ends(c, actions, states, d, v, h) && !a.Crash? && EnabledIn(c, d, v, a) && DoIn(c, d, v, a) == (d', v')
    ensures var h' := DoHistory(c, v, h, a);
            Ends(c, actions + [a], states + [State(d', Running(v'), h')], d', v', h')
  {
    hide EnabledIn, DoIn, DoHistory;
    Extend(c, actions, states, a);
  }

  /** A new database, opened. */
  lemma Opens(c: Config) returns (actions: seq<Action>, states: seq<State>, d: Disk, v: Session)
    ensures Ends(c, actions, states, d, v, History([], 0, [])) && LogTable(d.log) == map[] && d.runs == map[] && d.manifest == None
    ensures v == Session(map[], [], 0, Free, None, Idle, false, false, false, true, map[], map[], {}, {})
    ensures actions == [Load, OpenLog]
  {
    var s0 := Initial();
    var s1 := s0.(phase := DoLoad(s0.disk));
    var s2 := DoOpenLog(c, s1);
    actions, states := [Load, OpenLog], [s0, s1, s2];
    assert DirEntries(s0.disk) == {};
    assert Enabled(c, s0, Load) && Enabled(c, s1, OpenLog);
    assert Replay([]) == map[];
    d, v := s2.disk, s2.phase.v;
  }

  function WriteSteps(b: Batch): seq<Action> { [BeginWrite(b), AppendLog, ApplyBatch, EndWrite] }

  /** A write that does not fill the buffer. */
  lemma Writes(c: Config, actions: seq<Action>, states: seq<State>, d: Disk, v: Session, h: History, b: Batch)
    returns (actions': seq<Action>, states': seq<State>, d': Disk)
    requires Ends(c, actions, states, d, v, h) && v.writer.Free? && v.op.None? && !Full(c, ApplyAll(v.mem, b))
    ensures Ends(c, actions', states', d', v.(mem := ApplyAll(v.mem, b)), h.(shown := h.shown + [b], logged := h.logged + [b]))
    ensures actions' == actions + WriteSteps(b) && states <= states'
  {
    hide Ends, Full, ApplyAll;
    d' := DoAppendLog(c, d, b);
    var h' := h.(shown := h.shown + [b], logged := h.logged + [b]);
    var v1 := v.(writer := Started(b), op := Some(b));
    var v2 := v1.(writer := Logged(b));
    var v3 := v2.(mem := ApplyAll(v.mem, b), writer := Applied);
    var v4 := v3.(writer := Free, op := None);
    var s1, s2, s3, s4 := State(d, Running(v1), h), State(d', Running(v2), h'), State(d', Running(v3), h'), State(d', Running(v4), h');
    Step(c, actions, states, d, v, h, BeginWrite(b), d, v1);
    Step(c, actions + [BeginWrite(b)], states + [s1], d, v1, h, AppendLog, d', v2);
    Step(c, actions + [BeginWrite(b)] + [AppendLog], states + [s1] + [s2], d', v2, h', ApplyBatch, d', v3);
    Step(c, actions + [BeginWrite(b)] + [AppendLog] + [ApplyBatch], states + [s1] + [s2] + [s3], d', v3, h', EndWrite, d', v4);
    actions', states' := actions + [BeginWrite(b)] + [AppendLog] + [ApplyBatch] + [EndWrite], states + [s1] + [s2] + [s3] + [s4];
  }

  /** A flush that fails at once. */
  lemma Fails(c: Config, actions: seq<Action>, states: seq<State>, d: Disk, v: Session, h: History)
    returns (actions': seq<Action>, states': seq<State>, v': Session)
    requires Ends(c, actions, states, d, v, h) && v.writer.Free? && v.op.None? && v.open && v.mem != map[]
    ensures Ends(c, actions', states', d, v', DoHistory(c, v, h, FailFlush))
    ensures v' == v.(mem := map[], nextSeq := v.nextSeq + 1, lost := if c.durable then v.lost + v.mem else map[])
    ensures actions' == actions + [TakeMemtable, FailFlush] && states <= states'
  {
    hide Ends, DoHistory;
    var v1 := DoTakeMemtable(v);
    v' := DoFailFlush(c, v1);
    assert DoHistory(c, v, h, TakeMemtable) == h && DoHistory(c, v1, h, FailFlush) == DoHistory(c, v, h, FailFlush) by {
      HistoryAside(c, v, v1, h);
    }
    var s1, s2 := State(d, Running(v1), h), State(d, Running(v'), DoHistory(c, v, h, FailFlush));
    Step(c, actions, states, d, v, h, TakeMemtable, d, v1);
    Step(c, actions + [TakeMemtable], states + [s1], d, v1, h, FailFlush, d, v');
    actions', states' := actions + [TakeMemtable] + [FailFlush], states + [s1] + [s2];
  }

  lemma HistoryAside(c: Config, v: Session, v1: Session, h: History)
    ensures DoHistory(c, v, h, TakeMemtable) == h && DoHistory(c, v1, h, FailFlush) == DoHistory(c, v, h, FailFlush)
  {
  }

  /** The files of a flush, without a filter. */
  lemma WritesFiles(c: Config, actions: seq<Action>, states: seq<State>, d: Disk, v: Session, h: History)
    returns (actions': seq<Action>, states': seq<State>, d': Disk)
    requires Ends(c, actions, states, d, v, h) && v.writer.Free? && v.mem != map[]
    ensures Ends(c, actions', states', d', v.(mem := map[], nextSeq := v.nextSeq + 1, writer := Building(Build(v.nextSeq, v.mem, RunFile))), h)
    ensures actions' == actions + [TakeMemtable, WriteRunTmp(Flusher), InstallRun(Flusher)] && states <= states'
  {
    hide Ends;
    var v1 := DoTakeMemtable(v);
    var (d2, v2) := DoWriteRunTmp(d, v1, Flusher);
    var (d3, v3) := DoInstallRun(d2, v2, Flusher);
    d' := d3;
    var s1, s2, s3 := State(d, Running(v1), h), State(d2, Running(v2), h), State(d3, Running(v3), h);
    var a1, a2, a3 := TakeMemtable, WriteRunTmp(Flusher), InstallRun(Flusher);
    Step(c, actions, states, d, v, h, a1, d, v1);
    Step(c, actions + [a1], states + [s1], d, v1, h, a2, d2, v2);
    Step(c, actions + [a1] + [a2], states + [s1] + [s2], d2, v2, h, a3, d3, v3);
    actions', states' := actions + [a1] + [a2] + [a3], states + [s1] + [s2] + [s3];
  }

  /** Its manifest and live list. */
  lemma Publishes(c: Config, actions: seq<Action>, states: seq<State>, d: Disk, v: Session, h: History)
    returns (actions': seq<Action>, states': seq<State>, d': Disk)
    requires Ends(c, actions, states, d, v, h) && v.writer.Building? && Built(v.writer.b)
    ensures Ends(c, actions', states', d', v.(runs := [v.writer.b.num] + v.runs, writer := FlushPublished(v.writer.b)), h.(base := |h.shown|))
    ensures actions' == actions + [StoreManifest, CommitFlush, PublishFlush] && states <= states'
  {
    hide Ends;
    var b, h' := v.writer.b, h.(base := |h.shown|);
    var d1, v1 := DoStoreManifest(d, v.nextSeq, [b.num] + v.runs), v.(writer := FlushStored(b));
    var d2, v2 := RenameManifest(d1), v.(writer := FlushCommitted(b));
    var v3 := DoPublishFlush(v2);
    d' := d2;
    var s1, s2, s3 := State(d1, Running(v1), h), State(d2, Running(v2), h'), State(d2, Running(v3), h');
    Step(c, actions, states, d, v, h, StoreManifest, d1, v1);
    Step(c, actions + [StoreManifest], states + [s1], d1, v1, h, CommitFlush, d2, v2);
    Step(c, actions + [StoreManifest] + [CommitFlush], states + [s1] + [s2], d2, v2, h', PublishFlush, d2, v3);
    actions', states' := actions + [StoreManifest] + [CommitFlush] + [PublishFlush], states + [s1] + [s2] + [s3];
  }

  /** The log emptied, if there is one, and the lock released. */
  lemma Rotates(c: Config, actions: seq<Action>, states: seq<State>, d: Disk, v: Session, h: History)
    returns (actions': seq<Action>, states': seq<State>, d': Disk)
    requires Ends(c, actions, states, d, v, h) && v.writer.FlushPublished?
    ensures Ends(c, actions', states', d', DoEndFlush(c, if c.durable then v.(lost := map[]) else v), Rotated(c, h))
    ensures actions' == actions + (if c.durable then [RemoveLog] else []) + [EndFlush] && states <= states'
  {
    hide Ends;
    if c.durable {
      var d1, v1 := d.(log := None), v.(writer := FlushUnlogged(v.writer.b), lost := map[]);
      var v2 := DoEndFlush(c, v1);
      d' := d1.(log := Some([]));
      var s1, s2 := State(d1, Running(v1), Rotated(c, h)), State(d', Running(v2), Rotated(c, h));
      Step(c, actions, states, d, v, h, RemoveLog, d1, v1);
      Step(c, actions + [RemoveLog], states + [s1], d1, v1, Rotated(c, h), EndFlush, d', v2);
      actions', states' := actions + [RemoveLog] + [EndFlush], states + [s1] + [s2];
    } else {
      d' := d;
      Step(c, actions, states, d, v, h, EndFlush, d, DoEndFlush(c, v));
      actions', states' := actions + [] + [EndFlush], states + [State(d, Running(DoEndFlush(c, v)), h)];
      assert actions + [] == actions;
    }
  }

  function Rotated(c: Config, h: History): History {
    if c.durable then h.(logged := h.shown) else h
  }

  function FlushSteps(c: Config): seq<Action> {
    [TakeMemtable, WriteRunTmp(Flusher), InstallRun(Flusher), StoreManifest, CommitFlush, PublishFlush]
    + (if c.durable then [RemoveLog] else []) + [EndFlush]
  }

  /** A whole flush. */
  lemma Flushes(c: Config, actions: seq<Action>, states: seq<State>, d: Disk, v: Session, h: History)
    returns (actions': seq<Action>, states': seq<State>, d': Disk)
    requires Ends(c, actions, states, d, v, h) && v.writer.Free? && v.mem != map[] && (c.durable || v.lost == map[])
    ensures Ends(c, actions', states', d',
                 DoEndFlush(c, v.(mem := map[], nextSeq := v.nextSeq + 1, runs := [v.nextSeq] + v.runs, lost := map[])),
                 Rotated(c, h.(base := |h.shown|)))
    ensures states <= states' && actions' == actions + FlushSteps(c)
  {
    hide Ends;
    var b := Build(v.nextSeq, v.mem, RunFile);
    var v1 := v.(mem := map[], nextSeq := v.nextSeq + 1, writer := Building(b));
    var v2 := v1.(runs := [v.nextSeq] + v.runs, writer := FlushPublished(b));
    var actions1, states1, d1 := WritesFiles(c, actions, states, d, v, h);
    var actions2, states2, d2 := Publishes(c, actions1, states1, d1, v1, h);
    actions', states', d' := Rotates(c, actions2, states2, d2, v2, h.(base := |h.shown|));
  }

  lemma OneFits(c: Config, k: Key, x: seq<byte>)
    requires |k| + |x| < c.capacity
    ensures var t := ApplyAll(map[], [Entry(k, Value(x))]); t == map[k := Value(x)] && k in t && !Full(c, t)
  {
    var t: Table := map[k := Value(x)];
    assert ApplyAll(map[], [Entry(k, Value(x))]) == t;
    assert k in t;
    SizeSplit(t, k);
    assert t - {k} == map[];
  }

  /** Without a crash, an acknowledged write can be lost for good: write `k`, let a
      flush fail, write another key, flush. No client is shown `k` again, and
      neither is one that reopens the directory. */
  lemma AckedWriteLost(c: Config, k: Key, x: seq<byte>, k': Key, x': seq<byte>)
    returns (actions: seq<Action>, states: seq<State>, acked: nat)
    requires c.trigger >= 2 && c.durable && k != k' && |k| + |x| < c.capacity && |k'| + |x'| < c.capacity
    ensures IsRun(c, actions, states)
    ensures actions == [Load, OpenLog] + WriteSteps([Entry(k, Value(x))]) + [TakeMemtable, FailFlush]
                       + WriteSteps([Entry(k', Value(x'))]) + FlushSteps(c)
    ensures acked < |states| && Abs(states[acked]).ops == [[Entry(k, Value(x))]]
    ensures var s := Last(states);
            && s.phase.Running? && s.phase.v.writer.Free?
            && SessionView(s.disk, s.phase.v) == map[k' := x'] && Fold(Recovered(c, s.h)) == map[k' := x']
  {
    hide ApplyAll, Full, IsRun, SessionView, Fold;
    var b, b' := [Entry(k, Value(x))], [Entry(k', Value(x'))];
    OneFits(c, k, x);
    OneFits(c, k', x');
    var actions0, states0, d0, v0 := Opens(c);
    var actions1, states1, d1 := Writes(c, actions0, states0, d0, v0, History([], 0, []), b);
    var v1 := v0.(mem := map[k := Value(x)]);
    assert k in v1.mem;
    acked := |states1| - 1;
    var actions2, states2, v2 := Fails(c, actions1, states1, d1, v1, History([b], 0, [b]));
    var actions3, states3, d3 := Writes(c, actions2, states2, d1, v2, History([], 0, [b]), b');
    var v3 := v2.(mem := map[k' := Value(x')]);
    assert k' in v3.mem;
    var d4;
    actions, states, d4 := Flushes(c, actions3, states3, d3, v3, History([b'], 0, [b, b']));
    OpenEngineShowsHistory(c, actions, states, |states| - 1);
    assert Fold([b']) == map[k' := x'] by { FoldOne(k', x'); }
  }

  lemma FoldOne(k: Key, x: seq<byte>)
    ensures Fold([[Entry(k, Value(x))]]) == map[k := x]
  {
    var b := [Entry(k, Value(x))];
    FoldAppend([], b);
    assert [] + [b] == [b];
    assert WriteAll(map[], b) == WriteOne(WriteAll(map[], []), b[0]);
  }

  /** With a trigger below 2, a request can be answered by doing nothing: one
      flushed run reaches the trigger, the compactor finds fewer than two runs, and
      nothing is requested or running any more. */
  lemma TriggerBelowTwoFails(c: Config, k: Key, x: seq<byte>) returns (actions: seq<Action>, states: seq<State>)
    requires c.trigger < 2 && |k| + |x| < c.capacity
    ensures IsRun(c, actions, states)
    ensures var s := Last(states);
            && s.phase.Running? && s.phase.v.flushed && !s.phase.v.pending && s.phase.v.comp.Idle? && s.phase.v.writer.Free?
            && |s.phase.v.runs| >= c.trigger
  {
    hide ApplyAll, Full, IsRun;
    OneFits(c, k, x);
    var b := [Entry(k, Value(x))];
    var actions0, states0, d0, v0 := Opens(c);
    var actions1, states1, d1 := Writes(c, actions0, states0, d0, v0, History([], 0, []), b);
    var v1 := v0.(mem := map[k := Value(x)]);
    assert k in v1.mem;
    var actions2, states2, d2 := Flushes(c, actions1, states1, d1, v1, History([b], 0, [b]));
    var v2, h2 := DoEndFlush(c, v1.(mem := map[], nextSeq := 1, runs := [0], lost := map[])), History([b], 1, [b]);
    assert [v1.nextSeq] + v1.runs == [0];
    actions, states := Declines(c, actions2, states2, d2, v2, h2);
  }

  /** A failed compaction loses its request: with two flushed runs at a trigger of
      2, one failure leaves nothing requested and nothing running. */
  lemma FailedCompactionLosesRequest(c: Config, k: Key, x: seq<byte>) returns (actions: seq<Action>, states: seq<State>)
    requires c.trigger == 2 && |k| + |x| < c.capacity
    ensures IsRun(c, actions, states)
    ensures var s := Last(states);
            && s.phase.Running? && s.phase.v.flushed && !s.phase.v.pending && s.phase.v.comp.Idle? && s.phase.v.writer.Free?
            && |s.phase.v.runs| >= c.trigger
  {
    hide ApplyAll, Full, IsRun, WriteSteps, FlushSteps;
    OneFits(c, k, x);
    var b, t := [Entry(k, Value(x))], map[k := Value(x)];
    assert k in t;
    var actions0, states0, d0, v0 := Opens(c);
    var actions1, states1, d1 := Writes(c, actions0, states0, d0, v0, History([], 0, []), b);
    var v1, h1 := v0.(mem := t), History([b], 0, [b]);
    var actions2, states2, d2 := Flushes(c, actions1, states1, d1, v1, h1);
    var v2, h2 := DoEndFlush(c, v0.(nextSeq := 1, runs := [0])), History([b], 1, [b]);
    assert [v1.nextSeq] + v1.runs == [0];
    var actions3, states3, d3 := Writes(c, actions2, states2, d2, v2, h2, b);
    var v3, h3 := v2.(mem := t), History([b] + [b], 1, [b] + [b]);
    var actions4, states4, d4 := Flushes(c, actions3, states3, d3, v3, h3);
    var v4, h4 := DoEndFlush(c, v2.(nextSeq := 2, runs := [1, 0])), History([b] + [b], 2, [b] + [b]);
    assert [v3.nextSeq] + v3.runs == [1, 0];
    actions, states := GivesUp(c, actions4, states4, d4, v4, h4);
  }

  /** A compaction that fails as soon as it has its inputs. */
  lemma GivesUp(c: Config, actions: seq<Action>, states: seq<State>, d: Disk, v: Session, h: History)
    returns (actions': seq<Action>, states': seq<State>)
    requires Ends(c, actions, states, d, v, h) && v.pending && v.comp.Idle? && v.writer.Free? && |v.runs| >= 2
    ensures Ends(c, actions', states', d, v.(pending := false, stalled := true), h)
  {
    hide Ends;
    var v1 := v.(pending := false, stalled := false, comp := Armed);
    var v2 := v1.(comp := Inputs(v.runs));
    var v3 := v2.(comp := Done(v.runs), stalled := true);
    var a1, a2, a3 := StartCompaction, SnapshotInputs, FailCompaction;
    var s1, s2, s3 := State(d, Running(v1), h), State(d, Running(v2), h), State(d, Running(v3), h);
    Step(c, actions, states, d, v, h, a1, d, v1);
    Step(c, actions + [a1], states + [s1], d, v1, h, a2, d, v2);
    Step(c, actions + [a1] + [a2], states + [s1] + [s2], d, v2, h, a3, d, v3);
    actions', states' := LetsGo(c, actions + [a1] + [a2] + [a3], states + [s1] + [s2] + [s3], d, v3, h);
  }

  /** The snapshot dropped and the compactor idle again. */
  lemma LetsGo(c: Config, actions: seq<Action>, states: seq<State>, d: Disk, v: Session, h: History)
    returns (actions': seq<Action>, states': seq<State>)
    requires Ends(c, actions, states, d, v, h) && v.comp.Done?
    ensures Ends(c, actions', states', d, v.(comp := Idle), h)
  {
    hide Ends;
    var v1 := v.(comp := Done([]));
    var v2 := v1.(comp := Idle);
    var s1, s2 := State(d, Running(v1), h), State(d, Running(v2), h);
    Step(c, actions, states, d, v, h, ReleaseInputs, d, v1);
    Step(c, actions + [ReleaseInputs], states + [s1], d, v1, h, EndCompaction, d, v2);
    actions', states' := actions + [ReleaseInputs] + [EndCompaction], states + [s1] + [s2];
  }

  /** A compaction that finds fewer than two runs. */
  lemma Declines(c: Config, actions: seq<Action>, states: seq<State>, d: Disk, v: Session, h: History)
    returns (actions': seq<Action>, states': seq<State>)
    requires Ends(c, actions, states, d, v, h) && v.pending && v.comp.Idle? && v.writer.Free? && |v.runs| < 2
    ensures Ends(c, actions', states', d, v.(pending := false, stalled := false), h)
  {
    hide Ends;
    var v1 := v.(pending := false, stalled := false, comp := Armed);
    var v2 := v1.(comp := Done([]));
    var v3 := v2.(comp := Idle);
    var a1, a2, a3 := StartCompaction, SnapshotInputs, EndCompaction;
    var s1, s2, s3 := State(d, Running(v1), h), State(d, Running(v2), h), State(d, Running(v3), h);
    Step(c, actions, states, d, v, h, a1, d, v1);
    Step(c, actions + [a1], states + [s1], d, v1, h, a2, d, v2);
    Step(c, actions + [a1] + [a2], states + [s1] + [s2], d, v2, h, a3, d, v3);
    actions', states' := actions + [a1] + [a2] + [a3], states + [s1] + [s2] + [s3];
  }
}
