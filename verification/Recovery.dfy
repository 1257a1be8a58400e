/** Crashes and recovery: a crash between any two disk effects leaves a directory
    that still stands for the surviving history, and the recovery scan turns it
    into a session without losing or inventing anything. */
module Recovery {
  import opened Bytes
  import opened Records
  import opened Protocol
  import opened Invariant
  import opened Steps

  // -------------------------------------------------------------------- crash

  /** With the log, the directory replays to everything logged at every point of
      a write, a flush or a swap: in particular between the manifest commit and
      the log's removal, when the flushed writes are both in a run and in the log,
      and after a flush has failed. */
  lemma DurableAtEveryPoint(c: Config, d: Disk, v: Session, h: History)
    requires SessionInv(c, d, v, h) && c.durable
    ensures Fold(h.logged) == View(LogTable(d.log), Contents(d.runs, LiveRuns(d)))
  {
    hide LogTable, Contents, Overlay, Live, Fold, Compacted, BaseInv, ListInv, BelowInv, FilesInv, SidecarsInv, View;
    match v.writer
    case FlushCommitted(b) => NewestRun(d, b, v.runs, v.lost);
    case FlushUnlogged(b) => assert LogTable(d.log) == map[] by { EmptyLog(); }
    case SwapCommitted => SwappedHistory(c, d, v, h);
    case _ =>
  }

  lemma EmptyLog()
    ensures LogTable(None) == map[]
  {
  }

  lemma CrashKeeps(c: Config, d: Disk, v: Session, h: History, junk: Temps)
    requires SessionInv(c, d, v, h)
    ensures DiskInv(c, d.(temps := junk), h.(shown := Recovered(c, h), logged := Recovered(c, h)))
  {
    hide Contents, View, Fold, CompInv, FlushInv, ManifestInv, HistoryInv;
    LivePresent(c, d, v, h);
    if c.durable {
      DurableAtEveryPoint(c, d, v, h);
    } else {
      EmptyLog();
    }
  }

  // ----------------------------------------------------------------- recovery

  lemma ScanKeeps(c: Config, s: State, e: DirEntry)
    requires s.phase.Scanning? && Inv(c, s)
    ensures Inv(c, DoScan(s, e))
  {
    hide DiskInv, ScanInv, DoScan;
    ScannedDisk(c, s, e);
    ScannedRest(c, s, e);
  }

  lemma ScannedDisk(c: Config, s: State, e: DirEntry)
    requires s.phase.Scanning? && Inv(c, s)
    ensures DiskInv(c, DoScan(s, e).disk, s.h)
  {
    hide View, Fold, Contents, LogTable;
    if e.RunEntry? && e.run !in s.phase.live {
      ContentsFrame(s.disk.runs, s.disk.runs - {e.run}, s.phase.live);
    }
  }

  lemma ScannedRest(c: Config, s: State, e: DirEntry)
    requires s.phase.Scanning? && Inv(c, s)
    ensures var s' := DoScan(s, e);
            s'.phase.Scanning? && s'.h == s.h && ScanInv(s'.disk, s'.phase.live, s'.phase.nextSeq, s'.phase.todo)
  {
    hide DiskInv;
  }

  /** When the scan is over, exactly the temporaries, the runs the manifest does
      not name and their sidecars have been deleted, and every surviving name is
      below the counter the new session starts from. */
  lemma ScanComplete(c: Config, s: State)
    requires s.phase.Scanning? && Inv(c, s) && s.phase.todo == {}
    ensures s.disk.runs.Keys == (set x | x in LiveRuns(s.disk))
    ensures s.disk.sidecars.Keys <= (set x | x in LiveRuns(s.disk))
    ensures s.disk.temps == Temps(map[], map[], None)
    ensures forall x :: x in s.disk.runs ==> x < s.phase.nextSeq
  {
  }

  lemma OpenLogKeeps(c: Config, s: State)
    requires s.phase.Scanning? && Inv(c, s) && s.phase.todo == {}
    ensures Inv(c, DoOpenLog(c, s))
  {
    hide View, Fold, Contents, DiskInv, SessionInv;
    ScanComplete(c, s);
    OpenedLog(c, s);
    if LogTable(s.disk.log) == map[] { OpenedIdle(c, s); } else { OpenedCheckpoint(c, s); }
  }

  lemma OpenedLog(c: Config, s: State)
    requires s.phase.Scanning?
    ensures var d := DoOpenLog(c, s).disk;
            && d == s.disk.(log := d.log) && LogTable(d.log) == LogTable(s.disk.log)
            && (!c.durable ==> d.log == s.disk.log)
  {
    EmptyLog();
    assert Replay([]) == map[];
  }

  lemma OpenedIdle(c: Config, s: State)
    requires s.phase.Scanning? && Inv(c, s) && s.phase.todo == {} && LogTable(s.disk.log) == map[]
    ensures Inv(c, DoOpenLog(c, s))
  {
    hide View, Fold, Contents, LogTable;
    ScanComplete(c, s);
    OpenedLog(c, s);
    var none: Table := map[];
    assert none + none == none;
    assert s.h.shown[..|s.h.shown|] == s.h.shown;
  }

  lemma OpenedCheckpoint(c: Config, s: State)
    requires s.phase.Scanning? && Inv(c, s) && s.phase.todo == {} && LogTable(s.disk.log) != map[]
    ensures Inv(c, DoOpenLog(c, s))
  {
    hide View, Fold, Contents;
    ScanComplete(c, s);
    OpenedLog(c, s);
    assert map[] + LogTable(s.disk.log) == LogTable(s.disk.log);
  }

  // --------------------------------------------------------------- every step

  /** Writes and reads. */
  lemma WriteStepKeeps(c: Config, d: Disk, v: Session, h: History, a: Action)
    requires c.trigger >= 2 && SessionInv(c, d, v, h) && EnabledIn(c, d, v, a)
    requires a.BeginWrite? || a.AppendLog? || a.ApplyBatch? || a.EndWrite? || a.TakeMemtable? ||
             a.BeginRead? || a.EndRead?
    ensures var (d', v') := DoIn(c, d, v, a);
            SessionInv(c, d', v', DoHistory(c, v, h, a))
  {
    hide SessionInv;
    match a
    case BeginWrite(b) => BeginWriteKeeps(c, d, v, h, b);
    case AppendLog => AppendLogKeeps(c, d, v, h);
    case ApplyBatch => ApplyBatchKeeps(c, d, v, h);
    case EndWrite => EndWriteKeeps(c, d, v, h);
    case TakeMemtable => TakeMemtableKeeps(c, d, v, h);
    case BeginRead(id) => BeginReadKeeps(c, d, v, h, id);
    case EndRead(id) => EndReadKeeps(c, d, v, h, id);
  }

  /** The locked part of a flush. */
  lemma FlushStepKeeps(c: Config, d: Disk, v: Session, h: History, a: Action)
    requires c.trigger >= 2 && SessionInv(c, d, v, h) && EnabledIn(c, d, v, a)
    requires a.StoreManifest? || a.CommitFlush? || a.PublishFlush? || a.RemoveLog? || a.EndFlush? || a.FailFlush?
    ensures var (d', v') := DoIn(c, d, v, a);
            SessionInv(c, d', v', DoHistory(c, v, h, a))
  {
    hide SessionInv;
    match a
    case StoreManifest => StoreManifestKeeps(c, d, v, h);
    case CommitFlush => CommitFlushKeeps(c, d, v, h);
    case PublishFlush => PublishFlushKeeps(c, d, v, h);
    case RemoveLog => RemoveLogKeeps(c, d, v, h);
    case EndFlush => EndFlushKeeps(c, d, v, h);
    case FailFlush => FailFlushKeeps(c, d, v, h);
  }

  /** Files of runs, written or deleted. */
  lemma FileStepKeeps(c: Config, d: Disk, v: Session, h: History, a: Action)
    requires c.trigger >= 2 && SessionInv(c, d, v, h) && EnabledIn(c, d, v, a)
    requires a.WriteRunTmp? || a.InstallRun? || a.WriteSidecarTmp? || a.InstallSidecar? || a.DropRun? ||
             a.DropSidecar?
    ensures var (d', v') := DoIn(c, d, v, a);
            SessionInv(c, d', v', DoHistory(c, v, h, a))
  {
    hide SessionInv;
    match a
    case WriteRunTmp(who) => WriteRunTmpKeeps(c, d, v, h, who);
    case InstallRun(who) => InstallRunKeeps(c, d, v, h, who);
    case WriteSidecarTmp(who, extra) => WriteSidecarTmpKeeps(c, d, v, h, who, extra);
    case InstallSidecar(who) => InstallSidecarKeeps(c, d, v, h, who);
    case DropRun(r) => DropRunKeeps(c, d, v, h, r);
    case DropSidecar(r) => DropSidecarKeeps(c, d, v, h, r);
  }

  /** Compaction. */
  lemma CompactionStepKeeps(c: Config, d: Disk, v: Session, h: History, a: Action)
    requires c.trigger >= 2 && SessionInv(c, d, v, h) && EnabledIn(c, d, v, a)
    requires a.StartCompaction? || a.SnapshotInputs? || a.ReserveOutput? || a.StoreSwapManifest? ||
             a.CommitSwap? || a.PublishSwap? || a.FailCompaction? || a.ReleaseInputs? || a.EndCompaction?
    ensures var (d', v') := DoIn(c, d, v, a);
            SessionInv(c, d', v', DoHistory(c, v, h, a))
  {
    hide SessionInv;
    match a
    case StartCompaction => StartCompactionKeeps(c, d, v, h);
    case SnapshotInputs => SnapshotInputsKeeps(c, d, v, h);
    case ReserveOutput => ReserveOutputKeeps(c, d, v, h);
    case StoreSwapManifest => StoreSwapManifestKeeps(c, d, v, h);
    case CommitSwap => CommitSwapKeeps(c, d, v, h);
    case PublishSwap => PublishSwapKeeps(c, d, v, h);
    case FailCompaction => FailCompactionKeeps(c, d, v, h);
    case ReleaseInputs => ReleaseInputsKeeps(c, d, v, h);
    case EndCompaction => EndCompactionKeeps(c, d, v, h);
  }

  lemma SessionStepKeeps(c: Config, d: Disk, v: Session, h: History, a: Action)
    requires c.trigger >= 2 && SessionInv(c, d, v, h) && EnabledIn(c, d, v, a)
    ensures var (d', v') := DoIn(c, d, v, a);
            SessionInv(c, d', v', DoHistory(c, v, h, a))
  {
    hide SessionInv, DoIn, DoHistory;
    match a
    case BeginWrite(_) | AppendLog | ApplyBatch | EndWrite | TakeMemtable | BeginRead(_) | EndRead(_) =>
      WriteStepKeeps(c, d, v, h, a);
    case StoreManifest | CommitFlush | PublishFlush | RemoveLog | EndFlush | FailFlush =>
      FlushStepKeeps(c, d, v, h, a);
    case WriteRunTmp(_) | InstallRun(_) | WriteSidecarTmp(_, _) | InstallSidecar(_) | DropRun(_) | DropSidecar(_) =>
      FileStepKeeps(c, d, v, h, a);
    case _ => CompactionStepKeeps(c, d, v, h, a);
  }

  lemma StepKeeps(c: Config, s: State, a: Action)
    requires c.trigger >= 2 && Inv(c, s) && Enabled(c, s, a)
    ensures Inv(c, Do(c, s, a))
  {
    hide SessionInv, ScanInv, EnabledIn, DoIn;
    match s.phase
    case Down => LoadKeeps(c, s);
    case Scanning(live, nextSeq, todo) =>
      if a.Crash? { CrashInRecovery(c, s, a.junk); }
      else if a.ScanEntry? { ScanKeeps(c, s, a.entry); }
      else { OpenLogKeeps(c, s); }
    case Running(v) =>
      if a.Crash? { CrashRunning(c, s, a.junk); }
      else { SessionStepKeeps(c, s.disk, v, s.h, a); }
  }

  lemma LoadKeeps(c: Config, s: State)
    requires s.phase.Down? && Inv(c, s)
    ensures Inv(c, s.(phase := DoLoad(s.disk)))
  {
  }

  lemma CrashInRecovery(c: Config, s: State, junk: Temps)
    requires s.phase.Scanning? && Inv(c, s)
    ensures Inv(c, DoCrash(c, s, junk)) && DoCrash(c, s, junk).h == s.h
  {
    hide View, Fold, Contents, LogTable;
    assert s.h.shown[..|s.h.shown|] == s.h.shown;
  }

  lemma CrashRunning(c: Config, s: State, junk: Temps)
    requires s.phase.Running? && Inv(c, s)
    ensures Inv(c, DoCrash(c, s, junk))
  {
    CrashKeeps(c, s.disk, s.phase.v, s.h, junk);
  }

  /** Every reachable state satisfies the invariant. */
  lemma {:induction false} RunInvariant(c: Config, actions: seq<Action>, states: seq<State>, i: nat)
    requires c.trigger >= 2 && IsRun(c, actions, states) && i < |states|
    ensures Inv(c, states[i])
  {
    if i > 0 {
      RunInvariant(c, actions, states, i - 1);
      StepKeeps(c, states[i - 1], actions[i - 1]);
    }
  }
}
