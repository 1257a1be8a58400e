/** Every step of the machine keeps the invariant. */
module Steps {
  import opened Bytes
  import opened Records
  import opened Protocol
  import opened Invariant

  // ------------------------------------------------------------------- writes

  lemma BeginWriteKeeps(c: Config, d: Disk, v: Session, h: History, b: Batch)
    requires SessionInv(c, d, v, h) && v.writer.Free?
    ensures SessionInv(c, d, v.(writer := Started(b), op := Some(b)), h)
  {
  }

  lemma AppendLogKeeps(c: Config, d: Disk, v: Session, h: History)
    requires SessionInv(c, d, v, h) && v.writer.Started?
    ensures SessionInv(c, DoAppendLog(c, d, v.writer.batch), v.(writer := Logged(v.writer.batch)), DoHistory(c, v, h, AppendLog))
  {
    hide HistoryInv, BaseInv, LockInv, ApplyAll, CompInv, FlushInv, ManifestInv, ListInv, BelowInv, FilesInv, SidecarsInv;
    var b := v.writer.batch;
    LoggedHistory(c, d, v.lost, v.mem, v.runs, b, h);
    LoggedLock(c, d, v, h);
    BaseGrows(c.durable, v.open, d.runs, LiveRuns(d), h, b);
    LogAside(d, DoAppendLog(c, d, b), v, Logged(b));
  }

  /** The log is no business of the run files or the manifest, nor is the progress
      of a write. */
  lemma LogAside(d: Disk, d': Disk, v: Session, w: Writer)
    requires d' == d.(log := d'.log) && v.writer.Started? && w.Logged?
    requires CompInv(d, v.runs, v.comp) && ManifestInv(d, v.runs, v.writer, v.comp)
    ensures CompInv(d', v.runs, v.comp) && ManifestInv(d', v.runs, w, v.comp) && FlushInv(d', v.mem, v.runs, w)
  {
    hide Contents, Compacted;
  }

  lemma BaseGrows(durable: bool, open: bool, files: map<nat, Table>, live: seq<nat>, h: History, b: Batch)
    requires BaseInv(durable, open, files, live, h)
    ensures BaseInv(durable, open, files, live, h.(shown := h.shown + [b], logged := h.logged + [b]))
  {
    hide View, Fold, Contents;
    assert (h.shown + [b])[..h.base] == h.shown[..h.base];
  }

  lemma LoggedLock(c: Config, d: Disk, v: Session, h: History)
    requires SessionInv(c, d, v, h) && v.writer.Started?
    ensures LockInv(c, DoAppendLog(c, d, v.writer.batch).log, v.(writer := Logged(v.writer.batch)), DoHistory(c, v, h, AppendLog))
  {
    hide CompInv, FlushInv, ManifestInv, ListInv, BelowInv, FilesInv, SidecarsInv, ReservedInv, ApplyAll, LogTable, Full, Contents, View, Fold;
    LoggedHistory(c, d, v.lost, v.mem, v.runs, v.writer.batch, h);
  }

  lemma LoggedHistory(c: Config, d: Disk, lost: Table, mem: Table, runs: seq<nat>, b: Batch, h: History)
    requires HistoryInv(d.runs, runs, mem, lost + mem, h)
    ensures HistoryInv(d.runs, runs, ApplyAll(mem, b), lost + ApplyAll(mem, b), h.(shown := h.shown + [b], logged := h.logged + [b]))
    ensures c.durable && LogTable(d.log) == lost + mem ==> LogTable(DoAppendLog(c, d, b).log) == lost + ApplyAll(mem, b)
  {
    hide ApplyAll, Fold, View, Contents;
    ReplayAppend(map[], if d.log.Some? then d.log.value else [], b);
    FoldAppend(h.shown, b);
    FoldAppend(h.logged, b);
    ApplyIsWrite(mem, Contents(d.runs, runs), b);
    ApplyIsWrite(lost + mem, Contents(d.runs, runs), b);
    ApplyOver(lost, mem, b);
  }

  lemma ApplyBatchKeeps(c: Config, d: Disk, v: Session, h: History)
    requires SessionInv(c, d, v, h) && v.writer.Logged?
    ensures SessionInv(c, d, v.(mem := ApplyAll(v.mem, v.writer.batch), writer := Applied), h)
  {
  }

  lemma EndWriteKeeps(c: Config, d: Disk, v: Session, h: History)
    requires SessionInv(c, d, v, h) && v.writer.Applied? && !Full(c, v.mem)
    ensures SessionInv(c, d, v.(writer := Free, op := None), h)
  {
  }

  // -------------------------------------------------------------------- flush

  lemma TakeMemtableKeeps(c: Config, d: Disk, v: Session, h: History)
    requires SessionInv(c, d, v, h) && (v.writer.Applied? || v.writer.Free?)
    ensures SessionInv(c, d, DoTakeMemtable(v), h)
  {
    hide View, Fold, Contents, CompInv, ListInv, SidecarsInv, LogTable, BaseInv;
  }

  lemma StoreManifestKeeps(c: Config, d: Disk, v: Session, h: History)
    requires SessionInv(c, d, v, h) && v.writer.Building? && Built(v.writer.b)
    ensures SessionInv(c, DoStoreManifest(d, v.nextSeq, [v.writer.b.num] + v.runs),
                       v.(writer := FlushStored(v.writer.b)), h)
  {
    hide View, Fold, Contents, ListInv, BelowInv, SidecarsInv, FilesInv, LogTable, BaseInv;
  }

  /** A published run is read as the table the flush took, and a log that still
      holds the flushed writes replays to the same database. */
  lemma NewestRun(d: Disk, b: Build, runs: seq<nat>, lost: Table)
    requires Built(b) && BuildInv(d, b)
    ensures View(map[], Contents(d.runs, [b.num] + runs)) == View(b.table, Contents(d.runs, runs))
    ensures View(lost + b.table, Contents(d.runs, [b.num] + runs)) == View(lost + b.table, Contents(d.runs, runs))
  {
    ContentsConcat(d.runs, [b.num], runs);
    assert Contents(d.runs, [b.num]) == [b.table];
    FlushPreservesView(b.table, Contents(d.runs, runs));
    ReplayOverFlushed(lost, b.table, Contents(d.runs, runs));
  }

  lemma CommitFlushKeeps(c: Config, d: Disk, v: Session, h: History)
    requires SessionInv(c, d, v, h) && v.writer.FlushStored?
    ensures SessionInv(c, RenameManifest(d), v.(writer := FlushCommitted(v.writer.b)), DoHistory(c, v, h, CommitFlush))
  {
    hide HistoryInv, LogTable, BaseInv, ListInv, BelowInv, FilesInv, SidecarsInv, Contents, Compacted;
    assert BaseInv(c.durable, v.open, d.runs, [v.writer.b.num] + v.runs, h.(base := |h.shown|)) by {
      assert !c.durable ==> v.open by { OpenWithoutLog(c.durable, v.open, d.runs, LiveRuns(d), h); }
      CommittedBase(c, d, v, h);
    }
    assert HistoryInv(d.runs, v.runs, v.writer.b.table, v.lost + v.writer.b.table, h.(base := |h.shown|)) by {
      BaseAside(d.runs, v.runs, v.writer.b.table, v.lost + v.writer.b.table, h, |h.shown|);
    }
  }

  lemma OpenWithoutLog(durable: bool, open: bool, files: map<nat, Table>, live: seq<nat>, h: History)
    requires BaseInv(durable, open, files, live, h)
    ensures !durable ==> open
  {
  }

  lemma BaseAside(files: map<nat, Table>, runs: seq<nat>, buffered: Table, inLog: Table, h: History, base: nat)
    requires HistoryInv(files, runs, buffered, inLog, h)
    ensures HistoryInv(files, runs, buffered, inLog, h.(base := base))
  {
  }

  lemma CommittedBase(c: Config, d: Disk, v: Session, h: History)
    requires v.writer.FlushStored? || v.writer.FlushCommitted?
    requires FlushInv(d, v.mem, v.runs, v.writer) && HistoryInv(d.runs, v.runs, v.writer.b.table, v.lost + v.writer.b.table, h)
    requires !c.durable ==> v.open
    ensures BaseInv(c.durable, v.open, d.runs, [v.writer.b.num] + v.runs, h.(base := |h.shown|))
    ensures HistoryInv(d.runs, [v.writer.b.num] + v.runs, map[], v.lost + v.writer.b.table, h)
  {
    hide View, Fold, Contents, BuildInv;
    NewestRun(d, v.writer.b, v.runs, v.lost);
    assert h.shown[..|h.shown|] == h.shown;
  }

  lemma PublishFlushKeeps(c: Config, d: Disk, v: Session, h: History)
    requires SessionInv(c, d, v, h) && v.writer.FlushCommitted?
    ensures SessionInv(c, d, DoPublishFlush(v), h)
  {
    hide HistoryInv, BaseInv, LockInv, CompInv, ListInv, BelowInv, FilesInv, SidecarsInv, FlushInv, ManifestInv, Buffered, InLog, ReservedInv;
    PublishedData(c, d, v, h);
    PublishedLock(c, d, v, h);
    PublishedNames(c, d, v, h);
    PrependInputs(v.writer.b.num, d, v.runs, v.comp);
  }

  lemma PublishedData(c: Config, d: Disk, v: Session, h: History)
    requires SessionInv(c, d, v, h) && v.writer.FlushCommitted?
    ensures var v' := DoPublishFlush(v);
            && HistoryInv(d.runs, v'.runs, Buffered(v'.mem, v'.writer), InLog(v'.lost, v'.mem, v'.writer), h)
            && FlushInv(d, v'.mem, v'.runs, v'.writer) && ManifestInv(d, v'.runs, v'.writer, v'.comp)
  {
    hide HistoryInv, LockInv, CompInv, ListInv, BelowInv, FilesInv, SidecarsInv, View, Fold, Contents;
    CommittedBase(c, d, v, h);
  }

  lemma PublishedLock(c: Config, d: Disk, v: Session, h: History)
    requires SessionInv(c, d, v, h) && v.writer.FlushCommitted?
    ensures LockInv(c, d.log, DoPublishFlush(v), h)
  {
    hide HistoryInv, BaseInv, CompInv, ListInv, BelowInv, FilesInv, SidecarsInv, ManifestInv, BuildInv, LogTable, Full, OpInv, LostInv;
    LostAside(c.durable, v.lost, v.writer, DoPublishFlush(v).writer, h);
    OpAside(v.writer, DoPublishFlush(v).writer, v.op, h);
  }

  lemma LostAside(durable: bool, lost: Table, w: Writer, w': Writer, h: History)
    requires LostInv(durable, lost, w, h) && !w'.FlushUnlogged?
    ensures LostInv(durable, lost, w', h)
  {
  }

  lemma OpAside(w: Writer, w': Writer, op: Option<Batch>, h: History)
    requires OpInv(w, op, h) && FlushNum(w).Some? && (FlushNum(w').Some? || w'.FlushPublished?)
    ensures OpInv(w', op, h)
  {
    hide EndsWith;
  }

  lemma PublishedNames(c: Config, d: Disk, v: Session, h: History)
    requires SessionInv(c, d, v, h) && v.writer.FlushCommitted?
    ensures var v' := DoPublishFlush(v);
            && ListInv(v'.runs, v.obsolete, v.doomed) && FilesInv(d.runs, v'.runs, InputsOf(v.comp), v.readers)
            && ReservedInv(FlushNum(v'.writer), CompNum(v.comp), v'.runs, v.obsolete, v.doomed, v.nextSeq)
            && ReservedInv(CompNum(v.comp), FlushNum(v'.writer), v'.runs, v.obsolete, v.doomed, v.nextSeq)
  {
    hide HistoryInv, BaseInv, LockInv, CompInv, ListInv, BelowInv, SidecarsInv, ManifestInv;
    PrependRun(v.writer.b.num, v.runs, v.obsolete, v.doomed);
  }

  /** A run flushed during a compaction lands above the inputs, which stay the
      oldest suffix of the live list. */
  lemma PrependInputs(x: nat, d: Disk, runs: seq<nat>, comp: Compaction)
    requires CompInv(d, runs, comp)
    ensures CompInv(d, [x] + runs, comp)
  {
    if comp.Inputs? || comp.Output? {
      var n := |comp.inputs|;
      assert ([x] + runs)[|[x] + runs| - n..] == runs[|runs| - n..];
    }
  }

  lemma PrependRun(x: nat, runs: seq<nat>, obsolete: set<nat>, doomed: set<nat>)
    requires ListInv(runs, obsolete, doomed) && x !in runs && x !in obsolete && x !in doomed
    ensures ListInv([x] + runs, obsolete, doomed)
  {
  }

  lemma RemoveLogKeeps(c: Config, d: Disk, v: Session, h: History)
    requires SessionInv(c, d, v, h) && c.durable && v.writer.FlushPublished?
    ensures SessionInv(c, d.(log := None), v.(writer := FlushUnlogged(v.writer.b), lost := map[]), DoHistory(c, v, h, RemoveLog))
  {
    hide View, Fold, Contents;
    assert map[] + v.mem == v.mem;
  }

  lemma EndFlushKeeps(c: Config, d: Disk, v: Session, h: History)
    requires SessionInv(c, d, v, h)
    requires if c.durable then v.writer.FlushUnlogged? else v.writer.FlushPublished?
    ensures SessionInv(c, if c.durable then d.(log := Some([])) else d, DoEndFlush(c, v), h)
  {
    hide View, Fold, Contents, ListInv, BelowInv, SidecarsInv, FilesInv;
    assert map[] + v.mem == v.mem;
    assert h.shown[..|h.shown|] == h.shown;
    assert Replay([]) == map[];
  }

  /** A failed flush: the runs alone answer for the session, and the log still
      holds everything. */
  lemma FailFlushKeeps(c: Config, d: Disk, v: Session, h: History)
    requires SessionInv(c, d, v, h) && EnabledIn(c, d, v, FailFlush)
    ensures SessionInv(c, d, DoFailFlush(c, v), DoHistory(c, v, h, FailFlush))
  {
    hide HistoryInv, BaseInv, LockInv, CompInv, ListInv, BelowInv, SidecarsInv, FilesInv, BuildInv, Buffered;
    FailedHistory(c, d, v, h);
    FailedLock(c, d, v, h);
  }

  lemma FailedHistory(c: Config, d: Disk, v: Session, h: History)
    requires SessionInv(c, d, v, h) && EnabledIn(c, d, v, FailFlush)
    ensures var v', h' := DoFailFlush(c, v), DoHistory(c, v, h, FailFlush);
            && HistoryInv(d.runs, v.runs, Buffered(v.mem, Free), InLog(v'.lost, v.mem, Free), h')
            && BaseInv(c.durable, v.open, d.runs, LiveRuns(d), h')
  {
    hide View, Fold, Contents, CompInv, ListInv, BelowInv, SidecarsInv, FilesInv, LogTable, BuildInv, LogInv, SignalInv;
    var taken := v.lost + v.writer.b.table;
    assert taken + map[] == taken;
    assert h.shown[..h.base][..h.base] == h.shown[..h.base];
  }

  lemma FailedLock(c: Config, d: Disk, v: Session, h: History)
    requires SessionInv(c, d, v, h) && EnabledIn(c, d, v, FailFlush)
    ensures LockInv(c, d.log, DoFailFlush(c, v), DoHistory(c, v, h, FailFlush))
  {
    hide HistoryInv, Contents, CompInv, ListInv, BelowInv, SidecarsInv, FilesInv, LogTable, BuildInv, ManifestInv;
    var taken := v.lost + v.writer.b.table;
    assert taken + map[] == taken;
  }

  // --------------------------------------------------------------- compaction

  lemma StartCompactionKeeps(c: Config, d: Disk, v: Session, h: History)
    requires SessionInv(c, d, v, h) && v.comp.Idle?
    ensures SessionInv(c, d, v.(pending := false, stalled := false, comp := Armed), h)
  {
  }

  lemma SnapshotInputsKeeps(c: Config, d: Disk, v: Session, h: History)
    requires c.trigger >= 2
    requires SessionInv(c, d, v, h) && v.comp.Armed? && v.writer.Free?
    ensures SessionInv(c, d, v.(comp := if |v.runs| < 2 then Done([]) else Inputs(v.runs)), h)
  {
  }

  lemma ReserveOutputKeeps(c: Config, d: Disk, v: Session, h: History)
    requires SessionInv(c, d, v, h) && v.comp.Inputs?
    ensures SessionInv(c, d, DoReserveOutput(v), h)
  {
    hide HistoryInv, BaseInv, SidecarsInv, Contents, Compacted, LogTable, Full;
  }

  lemma StoreSwapManifestKeeps(c: Config, d: Disk, v: Session, h: History)
    requires SessionInv(c, d, v, h) && v.writer.Free? && v.comp.Output? && Built(v.comp.b)
    ensures SessionInv(c, DoStoreManifest(d, v.nextSeq, Swapped(v.runs, v.comp.inputs, v.comp.b.num)),
                       v.(writer := SwapStored), h)
  {
  }

  lemma CommitSwapKeeps(c: Config, d: Disk, v: Session, h: History)
    requires SessionInv(c, d, v, h) && v.writer.SwapStored?
    ensures SessionInv(c, RenameManifest(d), v.(writer := SwapCommitted), h)
  {
    hide HistoryInv, BaseInv, LogTable, Contents, Compacted, Swapped, ListInv, BelowInv, FilesInv, SidecarsInv, Full;
    SwappedHistory(c, d, v, h);
  }

  lemma SwappedHistory(c: Config, d: Disk, v: Session, h: History)
    requires SessionInv(c, d, v, h) && v.comp.Output? && Built(v.comp.b)
    ensures var runs' := Swapped(v.runs, v.comp.inputs, v.comp.b.num);
            && runs' == v.runs[..|v.runs| - |v.comp.inputs|] + [v.comp.b.num]
            && Distinct(runs') && Present(d.runs, runs')
            && HistoryInv(d.runs, runs', Buffered(v.mem, v.writer), InLog(v.lost, v.mem, v.writer), h)
            && (LiveRuns(d) == v.runs ==> BaseInv(c.durable, v.open, d.runs, runs', h))
  {
    hide View, Fold;
    SwapIsInvisible(d, v);
  }

  lemma PublishSwapKeeps(c: Config, d: Disk, v: Session, h: History)
    requires c.trigger >= 2
    requires SessionInv(c, d, v, h) && v.writer.SwapCommitted?
    ensures SessionInv(c, d, DoPublishSwap(v), h)
  {
    hide HistoryInv, BaseInv, LockInv, Swapped, ListInv, BelowInv, FilesInv, SidecarsInv, FlushInv, CompInv, ManifestInv, Buffered, InLog;
    SwapOwed(c, d, v, h);
    SwappedLock(c, d, v, h);
    SwappedNames(c, d, v, h);
  }

  /** What the swap owes to the data, the manifest and the threads. */
  lemma SwapOwed(c: Config, d: Disk, v: Session, h: History)
    requires SessionInv(c, d, v, h) && v.writer.SwapCommitted?
    ensures v.comp.Output? && Built(v.comp.b)
    ensures var v' := DoPublishSwap(v);
            && HistoryInv(d.runs, v'.runs, Buffered(v'.mem, v'.writer), InLog(v'.lost, v'.mem, v'.writer), h)
            && CompInv(d, v'.runs, v'.comp) && FlushInv(d, v'.mem, v'.runs, v'.writer) && ManifestInv(d, v'.runs, v'.writer, v'.comp)
  {
    hide HistoryInv, BaseInv, LockInv, Swapped, ListInv, BelowInv, FilesInv, SidecarsInv, BuildInv, Contents, Compacted;
    SwappedHistory(c, d, v, h);
  }

  lemma SwappedLock(c: Config, d: Disk, v: Session, h: History)
    requires c.trigger >= 2 && SessionInv(c, d, v, h) && v.writer.SwapCommitted? && v.comp.Output? && Built(v.comp.b)
    ensures LockInv(c, d.log, DoPublishSwap(v), h)
  {
    hide HistoryInv, BaseInv, Swapped, ListInv, BelowInv, FilesInv, SidecarsInv, BuildInv, Contents, Compacted, LogTable, Full;
    SwappedHistory(c, d, v, h);
  }

  lemma SwappedNames(c: Config, d: Disk, v: Session, h: History)
    requires SessionInv(c, d, v, h) && v.writer.SwapCommitted? && v.comp.Output? && Built(v.comp.b)
    ensures var v' := DoPublishSwap(v);
            && BelowInv(d.runs, d.sidecars, v'.obsolete, v'.doomed, v'.nextSeq) && ListInv(v'.runs, v'.obsolete, v'.doomed)
            && FilesInv(d.runs, v'.runs, InputsOf(v'.comp), v'.readers)
  {
    hide HistoryInv, BaseInv, LockInv, Swapped, ListInv, SidecarsInv, BuildInv, Contents, Compacted, ManifestInv;
    SwappedHistory(c, d, v, h);
    SwappedList(v.runs, v.comp.inputs, v.comp.b.num, v.obsolete, v.doomed);
  }

  /** The inputs a swap marks obsolete are no longer in the list it installs. */
  lemma SwappedList(runs: seq<nat>, ins: seq<nat>, out: nat, obsolete: set<nat>, doomed: set<nat>)
    requires ListInv(runs, obsolete, doomed) && out !in runs && out !in obsolete && out !in doomed
    requires |ins| <= |runs| && runs[|runs| - |ins|..] == ins
    ensures ListInv(runs[..|runs| - |ins|] + [out], obsolete + (set r | r in ins), doomed)
  {
    var n := |runs| - |ins|;
    forall i, j | 0 <= i < n && 0 <= j < |ins| ensures runs[i] != ins[j] {
      assert runs[n + j] == runs[n..][j];
    }
    forall j | 0 <= j < |ins| ensures ins[j] in runs {
      assert runs[n + j] == runs[n..][j];
    }
  }

  /** A failed compaction leaves the live list, and whatever it wrote is nobody's. */
  lemma FailCompactionKeeps(c: Config, d: Disk, v: Session, h: History)
    requires SessionInv(c, d, v, h) && EnabledIn(c, d, v, FailCompaction)
    ensures SessionInv(c, d, DoFailCompaction(v), h)
  {
    hide HistoryInv, Contents, Compacted, BuildInv, ListInv, BelowInv, SidecarsInv, FilesInv, LogTable, BaseInv, Swapped, Full;
  }

  lemma ReleaseInputsKeeps(c: Config, d: Disk, v: Session, h: History)
    requires SessionInv(c, d, v, h) && v.comp.Done?
    ensures SessionInv(c, d, v.(comp := Done([])), h)
  {
  }

  lemma EndCompactionKeeps(c: Config, d: Disk, v: Session, h: History)
    requires SessionInv(c, d, v, h) && v.comp.Done?
    ensures SessionInv(c, d, v.(comp := Idle), h)
  {
  }

  // ------------------------------------------------------------------ readers

  lemma BeginReadKeeps(c: Config, d: Disk, v: Session, h: History, id: nat)
    requires SessionInv(c, d, v, h)
    ensures SessionInv(c, d, v.(readers := v.readers[id := Reader(v.mem, v.runs)]), h)
  {
  }

  lemma EndReadKeeps(c: Config, d: Disk, v: Session, h: History, id: nat)
    requires SessionInv(c, d, v, h)
    ensures SessionInv(c, d, v.(readers := v.readers - {id}), h)
  {
  }

  // ------------------------------------------------- writing a new run's files

  /** Every run the manifest names exists and is not superseded. */
  lemma LivePresent(c: Config, d: Disk, v: Session, h: History)
    requires SessionInv(c, d, v, h)
    ensures Present(d.runs, LiveRuns(d)) && Distinct(LiveRuns(d))
    ensures forall x :: x in LiveRuns(d) ==> x !in v.obsolete
  {
    hide HistoryInv, BaseInv, LogTable, Contents, Compacted;
    if v.writer.SwapCommitted? {
      SwappedHistory(c, d, v, h);
    } else if v.writer.FlushCommitted? {
      PrependRun(v.writer.b.num, v.runs, v.obsolete, v.doomed);
    }
  }

  /** A file under a new name is invisible to everything that reads runs. */
  lemma AddRun(c: Config, d: Disk, v: Session, h: History, x: nat, t: Table)
    requires SessionInv(c, d, v, h) && x !in d.runs && x !in d.sidecars && x < v.nextSeq
    ensures var files := d.runs[x := t];
            && BelowInv(files, d.sidecars, v.obsolete, v.doomed, v.nextSeq)
            && FilesInv(files, v.runs, InputsOf(v.comp), v.readers)
            && SidecarsInv(files, d.sidecars)
            && HistoryInv(files, v.runs, Buffered(v.mem, v.writer), InLog(v.lost, v.mem, v.writer), h)
            && BaseInv(c.durable, v.open, files, LiveRuns(d), h)
            && Contents(files, InputsOf(v.comp)) == Contents(d.runs, InputsOf(v.comp))
  {
    hide View, Fold, LogTable, CompInv, FlushInv, ManifestInv;
    ContentsFrame(d.runs, d.runs[x := t], v.runs);
    ContentsFrame(d.runs, d.runs[x := t], InputsOf(v.comp));
    LivePresent(c, d, v, h);
    ContentsFrame(d.runs, d.runs[x := t], LiveRuns(d));
  }

  /** The other thread's half-written run, if there is one. */
  function OtherBuild(v: Session, who: Who): Option<Build> {
    match who
    case Flusher => if v.comp.Output? then Some(v.comp.b) else None
    case Compactor => if v.writer.Building? || v.writer.FlushStored? || v.writer.FlushCommitted? then Some(v.writer.b) else None
  }

  /** A step on one thread's files leaves the other thread's files alone. */
  lemma OtherBuildKept(c: Config, d: Disk, d': Disk, v: Session, h: History, who: Who)
    requires SessionInv(c, d, v, h) && BuildOf(v, who).Some? && OtherBuild(v, who).Some?
    requires forall x :: x != BuildOf(v, who).value.num ==>
      && SameAt(d.runs, d'.runs, x) && SameAt(d.sidecars, d'.sidecars, x)
      && SameAt(d.temps.runs, d'.temps.runs, x) && SameAt(d.temps.sidecars, d'.temps.sidecars, x)
    ensures BuildInv(d', OtherBuild(v, who).value)
  {
    hide HistoryInv, BaseInv, LogTable, ListInv, Contents, Compacted;
    var other := OtherBuild(v, who).value;
    assert BuildInv(d, other) && other.num != BuildOf(v, who).value.num;
    BuildFrame(d, d', other);
  }

  /** Both threads' files after a step of `who` from directory `d` to `d'`. */
  predicate BuildsInv(d: Disk, b: Build, other: Option<Build>) {
    BuildInv(d, b) && (other.Some? ==> BuildInv(d, other.value))
  }

  /** The next stage of a build is nobody else's business. */
  lemma StageAside(c: Config, d: Disk, v: Session, h: History, who: Who, v': Session)
    requires LockInv(c, d.log, v, h) && BuildOf(v, who).Some? && BuildOf(v', who).Some?
    requires v' == SetBuild(v, who, BuildOf(v', who).value)
    requires who == Flusher ==> BuildOf(v', who).value.table == BuildOf(v, who).value.table
    ensures LockInv(c, d.log, v', h)
  {
    hide LogTable, Full;
  }

  /** A run that is written but not installed. */
  lemma PendingRun(c: Config, d: Disk, v: Session, h: History, who: Who)
    requires SessionInv(c, d, v, h) && BuildOf(v, who).Some? && BuildOf(v, who).value.stage == RunTmp
    ensures var b := BuildOf(v, who).value;
            b.num !in d.runs && b.num !in d.sidecars && b.num < v.nextSeq && RunOf(d.temps.runs, b.num) == b.table
  {
    hide HistoryInv, BaseInv, LockInv, ManifestInv, ListInv, BelowInv, FilesInv, SidecarsInv, Contents, Compacted;
  }

  lemma WriteRunTmpBuilds(c: Config, d: Disk, v: Session, h: History, who: Who)
    requires SessionInv(c, d, v, h) && BuildOf(v, who).Some? && BuildOf(v, who).value.stage == Reserved
    ensures var (d', v') := DoWriteRunTmp(d, v, who);
            BuildOf(v', who).Some? && BuildsInv(d', BuildOf(v', who).value, OtherBuild(v, who))
  {
    hide HistoryInv, BaseInv, LogTable, ListInv, Contents, Compacted, ManifestInv;
    var (d', v') := DoWriteRunTmp(d, v, who);
    if OtherBuild(v, who).Some? { OtherBuildKept(c, d, d', v, h, who); }
    assert BuildInv(d', BuildOf(v', who).value);
  }

  lemma WriteRunTmpKeeps(c: Config, d: Disk, v: Session, h: History, who: Who)
    requires SessionInv(c, d, v, h) && BuildOf(v, who).Some? && BuildOf(v, who).value.stage == Reserved
    ensures var (d', v') := DoWriteRunTmp(d, v, who); SessionInv(c, d', v', h)
  {
    hide HistoryInv, BaseInv, LogTable, ListInv, BelowInv, FilesInv, SidecarsInv, LockInv, Swapped;
    WriteRunTmpBuilds(c, d, v, h, who);
    StageAside(c, d, v, h, who, DoWriteRunTmp(d, v, who).1);
  }

  lemma InstallRunBuilds(c: Config, d: Disk, v: Session, h: History, who: Who)
    requires SessionInv(c, d, v, h) && BuildOf(v, who).Some? && BuildOf(v, who).value.stage == RunTmp
    ensures var (d', v') := DoInstallRun(d, v, who);
            BuildOf(v', who).Some? && BuildsInv(d', BuildOf(v', who).value, OtherBuild(v, who))
  {
    hide HistoryInv, BaseInv, LogTable, ListInv, Contents, Compacted, ManifestInv;
    var (d', v') := DoInstallRun(d, v, who);
    if OtherBuild(v, who).Some? { OtherBuildKept(c, d, d', v, h, who); }
    assert BuildInv(d', BuildOf(v', who).value);
  }

  lemma InstallRunKeeps(c: Config, d: Disk, v: Session, h: History, who: Who)
    requires SessionInv(c, d, v, h) && BuildOf(v, who).Some? && BuildOf(v, who).value.stage == RunTmp
    ensures var (d', v') := DoInstallRun(d, v, who); SessionInv(c, d', v', h)
  {
    hide HistoryInv, BaseInv, LogTable, ListInv, Contents, Compacted, BelowInv, FilesInv, SidecarsInv, BuildInv;
    hide LockInv, Swapped;
    InstallRunBuilds(c, d, v, h, who);
    StageAside(c, d, v, h, who, DoInstallRun(d, v, who).1);
    var b := BuildOf(v, who).value;
    PendingRun(c, d, v, h, who);
    AddRun(c, d, v, h, b.num, b.table);
  }

  lemma WriteSidecarTmpBuilds(c: Config, d: Disk, v: Session, h: History, who: Who, extra: set<Key>)
    requires SessionInv(c, d, v, h) && BuildOf(v, who).Some? && BuildOf(v, who).value.stage == RunFile
    ensures var (d', v') := DoWriteSidecarTmp(d, v, who, extra);
            BuildOf(v', who).Some? && BuildsInv(d', BuildOf(v', who).value, OtherBuild(v, who))
  {
    hide HistoryInv, BaseInv, LogTable, ListInv, Contents, Compacted, ManifestInv;
    var (d', v') := DoWriteSidecarTmp(d, v, who, extra);
    if OtherBuild(v, who).Some? { OtherBuildKept(c, d, d', v, h, who); }
    assert BuildInv(d', BuildOf(v', who).value);
  }

  lemma WriteSidecarTmpKeeps(c: Config, d: Disk, v: Session, h: History, who: Who, extra: set<Key>)
    requires SessionInv(c, d, v, h) && BuildOf(v, who).Some? && BuildOf(v, who).value.stage == RunFile
    ensures var (d', v') := DoWriteSidecarTmp(d, v, who, extra); SessionInv(c, d', v', h)
  {
    hide HistoryInv, BaseInv, LogTable, ListInv, Contents, Compacted, LockInv, Swapped;
    WriteSidecarTmpBuilds(c, d, v, h, who, extra);
    StageAside(c, d, v, h, who, DoWriteSidecarTmp(d, v, who, extra).1);
  }

  lemma InstallSidecarBuilds(c: Config, d: Disk, v: Session, h: History, who: Who)
    requires SessionInv(c, d, v, h) && BuildOf(v, who).Some? && BuildOf(v, who).value.stage == SidecarTmp
    ensures var (d', v') := DoInstallSidecar(d, v, who);
            BuildOf(v', who).Some? && BuildsInv(d', BuildOf(v', who).value, OtherBuild(v, who))
  {
    hide HistoryInv, BaseInv, LogTable, ListInv, Contents, Compacted, ManifestInv;
    var (d', v') := DoInstallSidecar(d, v, who);
    if OtherBuild(v, who).Some? { OtherBuildKept(c, d, d', v, h, who); }
    assert BuildInv(d', BuildOf(v', who).value);
  }

  lemma InstallSidecarKeeps(c: Config, d: Disk, v: Session, h: History, who: Who)
    requires SessionInv(c, d, v, h) && BuildOf(v, who).Some? && BuildOf(v, who).value.stage == SidecarTmp
    ensures var (d', v') := DoInstallSidecar(d, v, who); SessionInv(c, d', v', h)
  {
    hide HistoryInv, BaseInv, LogTable, ListInv, Contents, Compacted, LockInv, Swapped;
    InstallSidecarBuilds(c, d, v, h, who);
    StageAside(c, d, v, h, who, DoInstallSidecar(d, v, who).1);
  }

  // ------------------------------------------------------------ dropping files

  /** The last handle to a superseded run is gone: its file may go too. */
  lemma DropRunKeeps(c: Config, d: Disk, v: Session, h: History, r: nat)
    requires SessionInv(c, d, v, h) && EnabledIn(c, d, v, DropRun(r))
    ensures SessionInv(c, d.(runs := d.runs - {r}), v.(obsolete := v.obsolete - {r}, doomed := v.doomed + {r}), h)
  {
    hide HistoryInv, BaseInv, ListInv, BelowInv, FilesInv, SidecarsInv, CompInv, FlushInv, LockInv, ManifestInv, InLog, Buffered;
    RemoveRun(c, d, v, h, r);
    RemovedParts(c, d, v, h, r);
  }

  /** What the two threads and the manifest owe to a directory without the file. */
  lemma RemovedParts(c: Config, d: Disk, v: Session, h: History, r: nat)
    requires SessionInv(c, d, v, h) && EnabledIn(c, d, v, DropRun(r))
    ensures var d', v' := d.(runs := d.runs - {r}), v.(obsolete := v.obsolete - {r}, doomed := v.doomed + {r});
            && CompInv(d', v.runs, v.comp) && FlushInv(d', v.mem, v.runs, v.writer) && ManifestInv(d', v.runs, v.writer, v.comp)
            && LockInv(c, d.log, v', h)
            && ReservedInv(FlushNum(v.writer), CompNum(v.comp), v.runs, v'.obsolete, v'.doomed, v.nextSeq)
            && ReservedInv(CompNum(v.comp), FlushNum(v.writer), v.runs, v'.obsolete, v'.doomed, v.nextSeq)
  {
    hide HistoryInv, BaseInv, ListInv, BelowInv, FilesInv, SidecarsInv, CompInv, FlushInv, ManifestInv;
    hide OpInv, SignalInv, CapacityInv, LogInv, LostInv, CommittedInv, OpenInv;
    RemovedThreads(c, d, v, h, r);
  }

  lemma RemovedThreads(c: Config, d: Disk, v: Session, h: History, r: nat)
    requires SessionInv(c, d, v, h) && EnabledIn(c, d, v, DropRun(r))
    ensures var d' := d.(runs := d.runs - {r});
            CompInv(d', v.runs, v.comp) && FlushInv(d', v.mem, v.runs, v.writer) && ManifestInv(d', v.runs, v.writer, v.comp)
  {
    hide HistoryInv, BaseInv, LockInv, Contents, Compacted, ListInv, BelowInv, FilesInv, SidecarsInv, BuildInv, Swapped;
    RemoveRun(c, d, v, h, r);
    RemoveRunBuilds(c, d, v, h, r);
    assert r !in v.runs;
  }

  lemma RemoveRunBuilds(c: Config, d: Disk, v: Session, h: History, r: nat)
    requires SessionInv(c, d, v, h) && r in v.obsolete
    ensures var d' := d.(runs := d.runs - {r});
            && (v.comp.Output? ==> BuildInv(d', v.comp.b))
            && (FlushNum(v.writer).Some? ==> BuildInv(d', v.writer.b))
  {
    hide HistoryInv, BaseInv, LogTable, Contents, Compacted, ListInv, BelowInv, FilesInv, SidecarsInv, ManifestInv;
    var d' := d.(runs := d.runs - {r});
    if v.comp.Output? { BuildFrame(d, d', v.comp.b); }
    if FlushNum(v.writer).Some? { BuildFrame(d, d', v.writer.b); }
  }

  lemma RemoveRun(c: Config, d: Disk, v: Session, h: History, r: nat)
    requires SessionInv(c, d, v, h) && EnabledIn(c, d, v, DropRun(r))
    ensures var files := d.runs - {r};
            && BelowInv(files, d.sidecars, v.obsolete - {r}, v.doomed + {r}, v.nextSeq)
            && ListInv(v.runs, v.obsolete - {r}, v.doomed + {r})
            && FilesInv(files, v.runs, InputsOf(v.comp), v.readers)
            && SidecarsInv(files, d.sidecars)
            && HistoryInv(files, v.runs, Buffered(v.mem, v.writer), InLog(v.lost, v.mem, v.writer), h)
            && BaseInv(c.durable, v.open, files, LiveRuns(d), h)
            && Contents(files, InputsOf(v.comp)) == Contents(d.runs, InputsOf(v.comp))
  {
    hide View, Fold, LogTable, CompInv, FlushInv, ManifestInv;
    var files := d.runs - {r};
    LivePresent(c, d, v, h);
    ContentsFrame(d.runs, files, v.runs);
    ContentsFrame(d.runs, files, InputsOf(v.comp));
    ContentsFrame(d.runs, files, LiveRuns(d));
  }

  lemma DropSidecarKeeps(c: Config, d: Disk, v: Session, h: History, r: nat)
    requires SessionInv(c, d, v, h) && r in v.doomed
    ensures SessionInv(c, d.(sidecars := d.sidecars - {r}), v.(doomed := v.doomed - {r}), h)
  {
    hide HistoryInv, BaseInv, LogTable, Contents, Compacted, FilesInv;
    hide OpInv, SignalInv, CapacityInv, LogInv, LostInv, CommittedInv, OpenInv, InLog, Buffered, Swapped;
  }
}
