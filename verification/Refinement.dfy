/** The engine refines a database that is nothing but a list of batches.

    The specification machine has no memtable, runs, log, manifest or files: a
    write is accepted and acknowledged, a read answers with the database of the
    instant it began, a failed flush takes the batches since the last commit out
    of view, and a crash keeps every batch logged since the last rotation (with
    the log) or every batch up to the last committed flush (without it). */
module Refinement {
  import opened Bytes
  import opened Records
  import opened Protocol
  import opened Invariant
  import opened Recovery

  /** What a client, or the power supply, can observe of a step. */
  datatype Label =
    | Quiet
    | Invoke(batch: Batch)          // a write begins
    | Ack                           // it returns
    | Commit                        // a flush commits its manifest
    | Rotated                       // the log is emptied
    | Flushed                       // an explicit flush returns
    | Failed                        // a write or a flush returns an error
    | Snapshot(id: nat)             // a read begins
    | Answer(id: nat, db: Db)       // it returns what it saw
    | Crashed

  /** `stable` counts the batches the committed runs hold, the one in flight
      included once its flush has committed. `logged` is what a reopening would
      show besides the one in flight, if there is a log; it differs from `ops`
      after a failed flush. */
  datatype Spec = Spec(ops: seq<Batch>, pending: Option<Batch>, stable: nat, logged: seq<Batch>, readers: map<nat, Db>)

  function InFlight(p: Spec): seq<Batch> {
    if p.pending.Some? then [p.pending.value] else []
  }

  predicate SpecNext(durable: bool, p: Spec, l: Label, p': Spec) {
    match l
    case Quiet => p' == p
    case Invoke(b) => p.pending.None? && p' == p.(pending := Some(b))
    case Ack => p.pending.Some? && p' == p.(ops := p.ops + InFlight(p), logged := p.logged + InFlight(p), pending := None)
    case Commit => p' == p.(stable := |p.ops + InFlight(p)|)
    case Rotated => p' == p.(logged := p.ops)
    case Flushed => p.pending.None? && p.stable == |p.ops| && p.logged == p.ops && p' == p
    case Failed =>
      && p.stable <= |p.ops|
      && p' == p.(ops := p.ops[..p.stable], pending := None,
                  logged := if durable then p.logged + InFlight(p) else p.ops[..p.stable])
    case Snapshot(id) => p.pending.None? && id !in p.readers && p' == p.(readers := p.readers[id := Fold(p.ops)])
    case Answer(id, db) => id in p.readers && p.readers[id] == db && p' == p.(readers := p.readers - {id})
    case Crashed =>
      && p'.pending.None? && p'.readers == map[] && p'.stable == p.stable && p'.logged == p'.ops
      && if durable then p'.ops == p.logged || p'.ops == p.logged + InFlight(p)
         else p.stable <= |p.ops + InFlight(p)| && p'.ops == (p.ops + InFlight(p))[..p.stable]
  }

  predicate IsSpecRun(durable: bool, labels: seq<Label>, specs: seq<Spec>) {
    |specs| == |labels| + 1 && specs[0] == Spec([], None, 0, [], map[]) &&
    forall i :: 0 <= i < |labels| ==> SpecNext(durable, specs[i], labels[i], specs[i + 1])
  }

  // ------------------------------------------------------------------ mapping

  function LabelOf(s: State, a: Action): Label {
    match a
    case BeginWrite(b) => Invoke(b)
    case EndWrite => Ack
    case CommitFlush => Commit
    case RemoveLog => Rotated
    case FailFlush => Failed
    case EndFlush => if s.phase.Running? && s.phase.v.op.Some? then Ack else Flushed
    case BeginRead(id) => Snapshot(id)
    case EndRead(id) =>
      if s.phase.Running? && id in s.phase.v.readers then Answer(id, ReaderView(s.disk, s.phase.v.readers[id])) else Quiet
    case Crash(_) => Crashed
    case OpenLog => if LogTable(s.disk.log) == map[] then Commit else Quiet
    case _ => Quiet
  }

  function ReaderDbs(files: map<nat, Table>, readers: map<nat, Reader>): map<nat, Db> {
    map id | id in readers :: View(readers[id].mem, Contents(files, readers[id].runs))
  }

  /** A history without the write still being served. */
  function AckedOps(op: Option<Batch>, w: Writer, batches: seq<Batch>): seq<Batch> {
    if op.Some? && !w.Started? && batches != [] then batches[..|batches| - 1] else batches
  }

  function Abs(s: State): Spec {
    match s.phase
    case Running(v) => WriteAbs(v, s.h, ReaderDbs(s.disk.runs, v.readers))
    case _ => Spec(s.h.shown, None, s.h.base, s.h.logged, map[])
  }

  /** The client's side of a session: what `Abs` makes of everything but the reads. */
  function WriteAbs(v: Session, h: History, dbs: map<nat, Db>): Spec {
    Spec(AckedOps(v.op, v.writer, h.shown), v.op, h.base, AckedOps(v.op, v.writer, h.logged), dbs)
  }

  // --------------------------------------------------------------- refinement

  /** What a reader will answer does not change while its files exist. */
  lemma ReadersFrame(files: map<nat, Table>, files': map<nat, Table>, readers: map<nat, Reader>)
    requires forall id, r :: id in readers && r in readers[id].runs ==> RunOf(files, r) == RunOf(files', r)
    ensures ReaderDbs(files, readers) == ReaderDbs(files', readers)
  {
    hide View;
    forall id | id in readers ensures Contents(files, readers[id].runs) == Contents(files', readers[id].runs) {
      ContentsFrame(files, files', readers[id].runs);
    }
  }

  /** No step other than a reader's own changes what a reader will answer,
      whatever is flushed, compacted or deleted meanwhile. */
  lemma ReadersUndisturbed(c: Config, d: Disk, v: Session, h: History, a: Action)
    requires SessionInv(c, d, v, h) && EnabledIn(c, d, v, a) && !a.BeginRead? && !a.EndRead?
    ensures var (d', v') := DoIn(c, d, v, a); ReaderDbs(d'.runs, v'.readers) == ReaderDbs(d.runs, v.readers)
  {
    hide SessionInv, ReaderDbs;
    if a.InstallRun? {
      ReadersUndisturbedByInstall(c, d, v, h, a.who);
    } else if a.DropRun? {
      ReadersFrame(d.runs, d.runs - {a.run}, v.readers);
    } else if OnFiles(a) {
      BuildUntouched(c, d, v, a);
    } else {
      RunsUntouched(c, d, v, a);
    }
  }

  predicate OnCompaction(a: Action) {
    a.StartCompaction? || a.SnapshotInputs? || a.ReserveOutput? || a.StoreSwapManifest? || a.CommitSwap? || a.PublishSwap?
    || a.FailCompaction? || a.ReleaseInputs? || a.EndCompaction?
  }

  lemma RunsUntouched(c: Config, d: Disk, v: Session, a: Action)
    requires EnabledIn(c, d, v, a) && !OnFiles(a) && !a.DropRun? && !a.BeginRead? && !a.EndRead?
    ensures DoIn(c, d, v, a).0.runs == d.runs && DoIn(c, d, v, a).1.readers == v.readers
  {
    hide Full, Present, Swapped, ApplyAll, BuildOf, SetBuild, DoWriteRunTmp, DoInstallRun, DoWriteSidecarTmp, DoInstallSidecar;
    if OnCompaction(a) {
      CompactionKeepsRuns(c, d, v, a);
      CompactionKeepsReaders(c, d, v, a);
    }
  }

  lemma CompactionKeepsRuns(c: Config, d: Disk, v: Session, a: Action)
    requires EnabledIn(c, d, v, a) && OnCompaction(a)
    ensures DoIn(c, d, v, a).0.runs == d.runs
  {
    hide Swapped, DoPublishSwap, Full, Present, ApplyAll, BuildOf, SetBuild, DoWriteRunTmp, DoInstallRun, DoWriteSidecarTmp, DoInstallSidecar,
      DoTakeMemtable, DoPublishFlush, DoEndFlush, DoFailFlush, DoAppendLog, InputsOf;
  }

  lemma CompactionKeepsReaders(c: Config, d: Disk, v: Session, a: Action)
    requires EnabledIn(c, d, v, a) && OnCompaction(a)
    ensures DoIn(c, d, v, a).1.readers == v.readers
  {
    hide Swapped, DoPublishSwap, Full, Present, ApplyAll, BuildOf, SetBuild, DoWriteRunTmp, DoInstallRun, DoWriteSidecarTmp, DoInstallSidecar,
      DoTakeMemtable, DoPublishFlush, DoEndFlush, DoFailFlush, DoAppendLog, InputsOf;
    match a
    case PublishSwap => SwapAside(v);
    case StartCompaction | SnapshotInputs | ReserveOutput | StoreSwapManifest | CommitSwap =>
    case FailCompaction | ReleaseInputs | EndCompaction =>
  }

  lemma SwapAside(v: Session)
    requires v.comp.Output?
    ensures DoPublishSwap(v).readers == v.readers && DoPublishSwap(v).op == v.op
  {
    hide Swapped;
  }

  lemma ReadersUndisturbedByInstall(c: Config, d: Disk, v: Session, h: History, who: Who)
    requires SessionInv(c, d, v, h) && BuildOf(v, who).Some? && BuildOf(v, who).value.stage == RunTmp
    ensures DoInstallRun(d, v, who).1.readers == v.readers
    ensures ReaderDbs(DoInstallRun(d, v, who).0.runs, v.readers) == ReaderDbs(d.runs, v.readers)
  {
    hide Contents, HistoryInv, BaseInv, LogInv, ManifestInv, SidecarsInv, ListInv, Compacted;
    var (d', v') := DoInstallRun(d, v, who);
    assert BuildOf(v, who).value.num !in d.runs;
    ReadersFrame(d.runs, d'.runs, v.readers);
  }

  predicate Observed(a: Action) {
    a.BeginWrite? || a.AppendLog? || a.EndWrite? || a.CommitFlush? || a.RemoveLog? || a.EndFlush? || a.FailFlush?
  }

  /** A write leaves the acknowledged batches alone until it returns. */
  lemma LoggedStep(durable: bool, v: Session, h: History, b: Batch, dbs: map<nat, Db>)
    requires v.writer == Started(b)
    ensures SpecNext(durable, WriteAbs(v, h, dbs), Quiet,
                     WriteAbs(v.(writer := Logged(b)), h.(shown := h.shown + [b], logged := h.logged + [b]), dbs))
        <== v.op == Some(b)
  {
    assert (h.shown + [b])[..|h.shown|] == h.shown;
    assert (h.logged + [b])[..|h.logged|] == h.logged;
  }

  /** The history without the write being served, and that write. */
  lemma Rejoined(op: Option<Batch>, w: Writer, batches: seq<Batch>)
    requires op.Some? && !w.Started? ==> EndsWith(batches, op.value)
    ensures !w.Started? ==> AckedOps(op, w, batches) + (if op.Some? then [op.value] else []) == batches
  {
  }

  lemma AckStep(durable: bool, v: Session, v': Session, h: History, dbs: map<nat, Db>)
    requires OpInv(v.writer, v.op, h) && !v.writer.Started? && v.op.Some? && v'.op.None?
    ensures SpecNext(durable, WriteAbs(v, h, dbs), Ack, WriteAbs(v', h, dbs))
  {
    Rejoined(v.op, v.writer, h.shown);
    Rejoined(v.op, v.writer, h.logged);
  }

  lemma CommitStep(durable: bool, v: Session, v': Session, h: History, dbs: map<nat, Db>)
    requires OpInv(v.writer, v.op, h) && !v.writer.Started? && !v'.writer.Started? && v'.op == v.op
    ensures SpecNext(durable, WriteAbs(v, h, dbs), Commit, WriteAbs(v', h.(base := |h.shown|), dbs))
  {
    Rejoined(v.op, v.writer, h.shown);
  }

  lemma RotateStep(durable: bool, v: Session, v': Session, h: History, dbs: map<nat, Db>)
    requires !v.writer.Started? && !v'.writer.Started? && v'.op == v.op
    ensures SpecNext(durable, WriteAbs(v, h, dbs), Rotated, WriteAbs(v', h.(logged := h.shown), dbs))
  {
  }

  lemma FlushedStep(c: Config, v: Session, v': Session, h: History, dbs: map<nat, Db>)
    requires v.op.None? && v'.op.None? && h.base == |h.shown| && h.logged == h.shown
    ensures SpecNext(c.durable, WriteAbs(v, h, dbs), Flushed, WriteAbs(v', h, dbs))
  {
  }

  /** The batches left in view are a prefix of the acknowledged ones. */
  lemma FailedOps(w: Writer, op: Option<Batch>, h: History)
    requires (w.Building? || w.FlushStored?) && h.base <= |h.shown| && CommittedInv(w, op, h)
    ensures var acked := AckedOps(op, w, h.shown);
            h.base <= |acked| && acked[..h.base] == Committed(h)
  {
  }

  lemma OpLogged(w: Writer, op: Option<Batch>, h: History)
    requires OpInv(w, op, h)
    ensures op.Some? && !w.Started? ==> EndsWith(h.shown, op.value) && EndsWith(h.logged, op.value)
  {
  }

  lemma NoneInFlight(w: Writer, batches: seq<Batch>)
    ensures AckedOps(None, w, batches) == batches
  {
  }

  lemma FailedStep(c: Config, v: Session, h: History, dbs: map<nat, Db>)
    requires (v.writer.Building? || v.writer.FlushStored?) && h.base <= |h.shown|
    requires OpInv(v.writer, v.op, h) && CommittedInv(v.writer, v.op, h)
    ensures SpecNext(c.durable, WriteAbs(v, h, dbs), Failed, WriteAbs(DoFailFlush(c, v), DoHistory(c, v, h, FailFlush), dbs))
  {
    hide CommittedInv, Committed, Fold, AckedOps, OpInv;
    FailedOps(v.writer, v.op, h);
    OpLogged(v.writer, v.op, h);
    Rejoined(v.op, v.writer, h.logged);
    NoneInFlight(Free, Committed(h));
    NoneInFlight(Free, h.logged);
  }

  /** The steps a client can observe, decided by the lock holder and the history. */
  lemma ObservedStep(c: Config, d: Disk, v: Session, h: History, a: Action, dbs: map<nat, Db>)
    requires Observed(a) && EnabledIn(c, d, v, a) && LockInv(c, d.log, v, h) && h.base <= |h.shown|
    ensures SpecNext(c.durable, WriteAbs(v, h, dbs), LabelOf(State(d, Running(v), h), a),
                     WriteAbs(DoIn(c, d, v, a).1, DoHistory(c, v, h, a), dbs))
  {
    hide SignalInv, CapacityInv, LogInv, Full;
    var v' := DoIn(c, d, v, a).1;
    match a
    case BeginWrite(_) =>
    case AppendLog => LoggedStep(c.durable, v, h, v.writer.batch, dbs);
    case EndWrite => AckStep(c.durable, v, v', h, dbs);
    case CommitFlush => CommitStep(c.durable, v, v', h, dbs);
    case RemoveLog => RotateStep(c.durable, v, v', h, dbs);
    case FailFlush => FailedStep(c, v, h, dbs);
    case EndFlush => if v.op.Some? { AckStep(c.durable, v, v', h, dbs); } else { FlushedStep(c, v, v', h, dbs); }
  }

  /** The others: no write begins or ends, and none is logged or committed. */
  lemma QuietStep(c: Config, d: Disk, v: Session, h: History, a: Action, dbs: map<nat, Db>)
    requires !Observed(a) && !a.BeginRead? && !a.EndRead? && EnabledIn(c, d, v, a)
    ensures WriteAbs(DoIn(c, d, v, a).1, DoHistory(c, v, h, a), dbs) == WriteAbs(v, h, dbs)
    ensures LabelOf(State(d, Running(v), h), a) == Quiet
  {
    hide EnabledIn, DoIn;
    if OnFiles(a) { BuildUntouched(c, d, v, a); } else { QuietWriter(c, d, v, a); }
  }

  predicate OnFiles(a: Action) {
    a.WriteRunTmp? || a.InstallRun? || a.WriteSidecarTmp? || a.InstallSidecar?
  }

  predicate SameHolder(w: Writer, w': Writer) {
    w' == w || (w.Building? && w'.Building?)
  }

  /** Writing a run's files is invisible until the manifest names it. */
  lemma BuildUntouched(c: Config, d: Disk, v: Session, a: Action)
    requires OnFiles(a) && EnabledIn(c, d, v, a)
    ensures var (d', v') := DoIn(c, d, v, a);
            && v' == v.(writer := v'.writer, comp := v'.comp) && SameHolder(v.writer, v'.writer)
            && (!a.InstallRun? ==> d'.runs == d.runs)
  {
    hide Present, Contents, Compacted, RunOf, SetBuild, BuildOf;
    forall b: Build { SetBuildAside(v, a.who, b); }
  }

  lemma SetBuildAside(v: Session, who: Who, b: Build)
    requires BuildOf(v, who).Some?
    ensures var v' := SetBuild(v, who, b);
            v' == v.(writer := v'.writer, comp := v'.comp) && SameHolder(v.writer, v'.writer)
  {
  }

  lemma QuietWriter(c: Config, d: Disk, v: Session, a: Action)
    requires !Observed(a) && !OnFiles(a) && !a.BeginRead? && !a.EndRead? && EnabledIn(c, d, v, a)
    ensures var (d', v') := DoIn(c, d, v, a);
            v'.op == v.op && v'.writer.Started? == v.writer.Started?
    ensures !a.OpenLog? && !a.Crash?
  {
    hide Full, Present, Swapped, ApplyAll, BuildOf, SetBuild, DoWriteRunTmp, DoInstallRun, DoWriteSidecarTmp, DoInstallSidecar;
  }

  lemma WriteRefines(c: Config, d: Disk, v: Session, h: History, a: Action)
    requires EnabledIn(c, d, v, a) && !a.BeginRead? && !a.EndRead? && !a.Crash?
    requires LockInv(c, d.log, v, h) && h.base <= |h.shown|
    requires ReaderDbs(DoIn(c, d, v, a).0.runs, DoIn(c, d, v, a).1.readers) == ReaderDbs(d.runs, v.readers)
    ensures var s := State(d, Running(v), h);
            SpecNext(c.durable, Abs(s), LabelOf(s, a), Abs(Do(c, s, a)))
  {
    hide EnabledIn, DoIn, AckedOps, ReaderDbs, LabelOf, LockInv, DoHistory, Observed;
    var dbs := ReaderDbs(d.runs, v.readers);
    if Observed(a) {
      hide SpecNext;
      ObservedStep(c, d, v, h, a, dbs);
    } else {
      QuietStep(c, d, v, h, a, dbs);
    }
  }

  lemma SessionRefines(c: Config, s: State, a: Action)
    requires s.phase.Running? && Inv(c, s) && Enabled(c, s, a) && !a.Crash?
    ensures SpecNext(c.durable, Abs(s), LabelOf(s, a), Abs(Do(c, s, a)))
  {
    hide EnabledIn, DoIn, ReaderDbs, LabelOf, SpecNext, LockInv, HistoryInv, CompInv, FlushInv, ManifestInv, Abs, DoHistory;
    if a.BeginRead? {
      BeginReadRefines(c, s, a.id);
    } else if a.EndRead? {
      EndReadRefines(c, s, a.id);
    } else {
      assert s == State(s.disk, Running(s.phase.v), s.h);
      ReadersUndisturbed(c, s.disk, s.phase.v, s.h, a);
      WriteRefines(c, s.disk, s.phase.v, s.h, a);
    }
  }

  lemma BeginReadRefines(c: Config, s: State, id: nat)
    requires s.phase.Running? && Inv(c, s) && Enabled(c, s, BeginRead(id))
    ensures SpecNext(c.durable, Abs(s), LabelOf(s, BeginRead(id)), Abs(Do(c, s, BeginRead(id))))
  {
    hide View, Contents, Fold, CompInv, FlushInv, ManifestInv, LogInv, BaseInv, ListInv, ReservedInv, BelowInv, SignalInv;
    ReaderJoins(s.disk, s.phase.v, id, s.h);
  }

  lemma EndReadRefines(c: Config, s: State, id: nat)
    requires s.phase.Running? && Inv(c, s) && Enabled(c, s, EndRead(id))
    ensures SpecNext(c.durable, Abs(s), LabelOf(s, EndRead(id)), Abs(Do(c, s, EndRead(id))))
  {
    hide View, Contents, SessionInv;
    var v := s.phase.v;
    assert ReaderDbs(s.disk.runs, v.readers - {id}) == ReaderDbs(s.disk.runs, v.readers) - {id};
  }

  /** A read that begins while the lock is free sees the fold of the history. */
  lemma ReaderJoins(d: Disk, v: Session, id: nat, h: History)
    requires Fold(h.shown) == View(v.mem, Contents(d.runs, v.runs)) && id !in v.readers
    ensures ReaderDbs(d.runs, v.readers[id := Reader(v.mem, v.runs)]) == ReaderDbs(d.runs, v.readers)[id := Fold(h.shown)]
  {
    hide View, Contents;
  }

  lemma CrashRefines(c: Config, s: State, junk: Temps)
    requires !s.phase.Down? && Inv(c, s)
    ensures SpecNext(c.durable, Abs(s), Crashed, Abs(DoCrash(c, s, junk)))
  {
    hide HistoryInv, DiskInv, CompInv, FlushInv, ManifestInv;
    if s.phase.Running? {
      CrashedStep(c, s.phase.v, s.h, ReaderDbs(s.disk.runs, s.phase.v.readers));
    } else {
      CrashedScan(c, s);
    }
  }

  lemma CrashedScan(c: Config, s: State)
    requires s.phase.Scanning? && Inv(c, s)
    ensures Recovered(c, s.h) == s.h.shown == s.h.logged && (!c.durable ==> s.h.base == |s.h.shown|)
  {
    assert s.h.shown[..|s.h.shown|] == s.h.shown;
  }

  lemma CrashedStep(c: Config, v: Session, h: History, dbs: map<nat, Db>)
    requires OpInv(v.writer, v.op, h) && h.base <= |h.shown|
    ensures SpecNext(c.durable, WriteAbs(v, h, dbs), Crashed, Spec(Recovered(c, h), None, h.base, Recovered(c, h), map[]))
  {
    Rejoined(v.op, v.writer, h.shown);
    Rejoined(v.op, v.writer, h.logged);
    if v.writer.Started? && v.op.Some? {
      assert (h.shown + [v.op.value])[..h.base] == h.shown[..h.base];
    }
  }

  /** Recovery is invisible: the session it starts stands for what survived. */
  lemma OpenRefines(c: Config, s: State, a: Action)
    requires !s.phase.Running? && !a.Crash? && Enabled(c, s, a)
    ensures SpecNext(c.durable, Abs(s), LabelOf(s, a), Abs(Do(c, s, a)))
  {
  }

  /** One step of the engine is one step of the specification. */
  lemma StepRefines(c: Config, s: State, a: Action)
    requires c.trigger >= 2 && Inv(c, s) && Enabled(c, s, a)
    ensures SpecNext(c.durable, Abs(s), LabelOf(s, a), Abs(Do(c, s, a)))
  {
    hide SessionInv, EnabledIn, DoIn, ReaderDbs;
    if a.Crash? {
      CrashRefines(c, s, a.junk);
    } else if s.phase.Running? {
      SessionRefines(c, s, a);
    } else {
      OpenRefines(c, s, a);
    }
  }

  function LabelsOf(actions: seq<Action>, states: seq<State>): (ls: seq<Label>)
    requires |states| == |actions| + 1
    ensures |ls| == |actions|
  {
    seq(|actions|, i requires 0 <= i < |actions| => LabelOf(states[i], actions[i]))
  }

  function AbsAll(states: seq<State>): (ps: seq<Spec>)
    ensures |ps| == |states|
  {
    seq(|states|, i requires 0 <= i < |states| => Abs(states[i]))
  }

  /** Every run of the engine, whatever its schedule and wherever it crashes, is
      a run of the specification with the same observations. */
  lemma EngineRefinesSpec(c: Config, actions: seq<Action>, states: seq<State>)
    requires c.trigger >= 2 && IsRun(c, actions, states)
    ensures IsSpecRun(c.durable, LabelsOf(actions, states), AbsAll(states))
  {
    forall i | 0 <= i < |actions|
      ensures SpecNext(c.durable, Abs(states[i]), LabelOf(states[i], actions[i]), Abs(states[i + 1]))
    {
      RunInvariant(c, actions, states, i);
      StepRefines(c, states[i], actions[i]);
    }
  }
}
