/** The engine as a step machine.

    Every disk effect and every lock-protected memory change of the write path,
    the flush, the background compaction, the readers and crash recovery is one
    step, so an arbitrary interleaving of steps is an arbitrary schedule of the
    threads and a `Crash` may fall between any two disk effects. All choice is in
    the action; `Do` is a function. */
module Protocol {
  import opened Bytes
  import opened Records
  import opened Sizes

  /** `durable` selects the write-ahead log; `trigger` is at least 2. */
  datatype Config = Config(durable: bool, capacity: nat, trigger: nat)

  // --------------------------------------------------------------------- disk

  datatype Manifest = Manifest(nextSeq: nat, live: seq<nat>)

  /** Files ending in `.tmp`. Their content is never trusted after a crash. */
  datatype Temps = Temps(runs: map<nat, Table>, sidecars: map<nat, set<Key>>, manifest: Option<Manifest>)

  /** The database directory. A run file is named by its sequence number; a
      sidecar is its run's filter, as the keys it answers yes for. */
  datatype Disk = Disk(
    runs: map<nat, Table>,
    sidecars: map<nat, set<Key>>,
    manifest: Option<Manifest>,
    log: Option<seq<Batch>>,
    temps: Temps)

  datatype DirEntry =
    | RunEntry(run: nat) | SidecarEntry(run: nat)
    | RunTmpEntry(run: nat) | SidecarTmpEntry(run: nat) | ManifestTmpEntry

  // ------------------------------------------------------------------- memory

  /** How far the writing of a new run file has come. */
  datatype Stage = Reserved | RunTmp | RunFile | SidecarTmp | SidecarFile

  datatype Build = Build(num: nat, table: Table, stage: Stage)

  /** The holder of the write lock, and how far it has come. */
  datatype Writer =
    | Free
    | Started(batch: Batch)          // a write holds the lock
    | Logged(batch: Batch)           // its record is in the log
    | Applied                        // the memtable holds it
    | Building(b: Build)             // a flush writes its run
    | FlushStored(b: Build)          // MANIFEST.tmp names the new run
    | FlushCommitted(b: Build)       // MANIFEST names it
    | FlushPublished(b: Build)       // the live list holds it
    | FlushUnlogged(b: Build)        // the old log is gone
    | SwapStored                     // compaction holds the lock, MANIFEST.tmp written
    | SwapCommitted                  // MANIFEST names the output

  /** The one compaction that may be in flight, lock-free until the swap. */
  datatype Compaction =
    | Idle
    | Armed                                  // request taken, nothing read
    | Inputs(inputs: seq<nat>)               // snapshot taken
    | Output(inputs: seq<nat>, b: Build)     // writing the merged run
    | Done(inputs: seq<nat>)                 // swapped or failed; the snapshot is still held

  /** What a reader cloned under the read lock. */
  datatype Reader = Reader(mem: Table, runs: seq<nat>)

  datatype Session = Session(
    mem: Table,
    runs: seq<nat>,              // newest first
    nextSeq: nat,
    writer: Writer,
    op: Option<Batch>,           // the write being served, if any
    comp: Compaction,
    pending: bool,               // a compaction has been requested
    flushed: bool,               // some flush has succeeded in this session
    stalled: bool,               // a compaction has failed, and no flush or request has come since
    open: bool,                  // `open` has returned: the checkpoint is done
    lost: Table,                 // taken by flushes that failed, still in the log
    readers: map<nat, Reader>,
    obsolete: set<nat>,          // superseded runs whose file still exists
    doomed: set<nat>)            // dropped runs whose sidecar is still to be removed

  datatype Phase =
    | Down
    | Scanning(live: seq<nat>, nextSeq: nat, todo: set<DirEntry>)
    | Running(v: Session)

  /** History variables, which no guard reads. */
  datatype History = History(
    shown: seq<Batch>,           // the batches the database stands for
    base: nat,                   // how many of them the committed runs hold
    logged: seq<Batch>)          // with those a failed flush has taken, as the log has them

  datatype State = State(disk: Disk, phase: Phase, h: History)

  datatype Who = Flusher | Compactor

  datatype Action =
    | BeginWrite(batch: Batch) | AppendLog | ApplyBatch | EndWrite
    | TakeMemtable
    | WriteRunTmp(who: Who) | InstallRun(who: Who)
    | WriteSidecarTmp(who: Who, extra: set<Key>) | InstallSidecar(who: Who)
    | StoreManifest | CommitFlush | PublishFlush | RemoveLog | EndFlush | FailFlush
    | StartCompaction | SnapshotInputs | ReserveOutput
    | StoreSwapManifest | CommitSwap | PublishSwap | FailCompaction | ReleaseInputs | EndCompaction
    | BeginRead(id: nat) | EndRead(id: nat)
    | DropRun(run: nat) | DropSidecar(run: nat)
    | Crash(junk: Temps)
    | Load | ScanEntry(entry: DirEntry) | OpenLog

  // ------------------------------------------------------------------ reading

  function RunOf(files: map<nat, Table>, run: nat): Table {
    if run in files then files[run] else map[]
  }

  function Contents(files: map<nat, Table>, runs: seq<nat>): (c: seq<Table>)
    ensures |c| == |runs|
  {
    seq(|runs|, i requires 0 <= i < |runs| => RunOf(files, runs[i]))
  }

  predicate Present(files: map<nat, Table>, runs: seq<nat>) {
    forall r :: r in runs ==> r in files
  }

  function LiveRuns(d: Disk): seq<nat> {
    if d.manifest.Some? then d.manifest.value.live else []
  }

  function LogTable(log: Option<seq<Batch>>): Table {
    if log.Some? then Replay(log.value) else map[]
  }

  /** The database a reader of this session sees through the current lists. */
  function SessionView(d: Disk, v: Session): Db {
    View(v.mem, Contents(d.runs, v.runs))
  }

  function ReaderView(d: Disk, r: Reader): Db {
    View(r.mem, Contents(d.runs, r.runs))
  }

  ghost predicate Full(c: Config, mem: Table) {
    mem != map[] && SizeOf(mem) >= c.capacity
  }

  function Without(runs: seq<nat>, inputs: seq<nat>): seq<nat> {
    if runs == [] then []
    else if runs[0] in inputs then Without(runs[1..], inputs)
    else [runs[0]] + Without(runs[1..], inputs)
  }

  /** The run list a swap installs: the runs not compacted, then the output. */
  function Swapped(runs: seq<nat>, inputs: seq<nat>, out: nat): seq<nat> {
    Without(runs, inputs) + [out]
  }

  predicate Built(b: Build) { b.stage == RunFile || b.stage == SidecarFile }

  /** The run files a compaction keeps open. */
  function InputsOf(comp: Compaction): seq<nat> {
    match comp
    case Inputs(ins) => ins
    case Output(ins, _) => ins
    case Done(ins) => ins
    case _ => []
  }

  predicate Swapping(w: Writer) { w.SwapStored? || w.SwapCommitted? }

  /** The run file a thread is in the middle of writing. */
  function BuildOf(v: Session, who: Who): Option<Build> {
    match who
    case Flusher => if v.writer.Building? then Some(v.writer.b) else None
    case Compactor => if v.comp.Output? && !Swapping(v.writer) then Some(v.comp.b) else None
  }

  function SetBuild(v: Session, who: Who, b: Build): Session
    requires BuildOf(v, who).Some?
  {
    match who
    case Flusher => v.(writer := Building(b))
    case Compactor => v.(comp := Output(v.comp.inputs, b))
  }

  function DirEntries(d: Disk): set<DirEntry> {
    (set x | x in d.runs :: RunEntry(x)) +
    (set x | x in d.sidecars :: SidecarEntry(x)) +
    (set x | x in d.temps.runs :: RunTmpEntry(x)) +
    (set x | x in d.temps.sidecars :: SidecarTmpEntry(x)) +
    (if d.temps.manifest.Some? then {ManifestTmpEntry} else {})
  }

  // -------------------------------------------------------------------- steps

  /** The engine's own control flow and locking, and nothing about correctness:
      a file that is read has to exist, a lock that is taken has to be free. */
  ghost predicate Enabled(c: Config, s: State, a: Action) {
    match s.phase
    case Down => a.Load? && Present(s.disk.runs, LiveRuns(s.disk))
    case Scanning(live, nextSeq, todo) =>
      a.Crash? || (a.ScanEntry? && a.entry in todo) || (a.OpenLog? && todo == {})
    case Running(v) => a.Crash? || EnabledIn(c, s.disk, v, a)
  }

  ghost predicate EnabledIn(c: Config, d: Disk, v: Session, a: Action) {
    match a
    case BeginWrite(_) => v.writer.Free?
    case AppendLog => v.writer.Started?
    case ApplyBatch => v.writer.Logged?
    case EndWrite => v.writer.Applied? && !Full(c, v.mem)
    case TakeMemtable => (v.writer.Applied? && Full(c, v.mem)) || (v.writer.Free? && v.mem != map[])
    case WriteRunTmp(who) => BuildOf(v, who).Some? && BuildOf(v, who).value.stage == Reserved
      && (who == Compactor ==> Present(d.runs, v.comp.inputs))
    case InstallRun(who) => BuildOf(v, who).Some? && BuildOf(v, who).value.stage == RunTmp
    case WriteSidecarTmp(who, _) => BuildOf(v, who).Some? && BuildOf(v, who).value.stage == RunFile
    case InstallSidecar(who) => BuildOf(v, who).Some? && BuildOf(v, who).value.stage == SidecarTmp
    case StoreManifest => v.writer.Building? && Built(v.writer.b)
    case CommitFlush => v.writer.FlushStored?
    case PublishFlush => v.writer.FlushCommitted?
    case RemoveLog => c.durable && v.writer.FlushPublished?
    case EndFlush => if c.durable then v.writer.FlushUnlogged? else v.writer.FlushPublished?
    case FailFlush => v.open && (v.writer.Building? || v.writer.FlushStored?)
    case StartCompaction => v.pending && v.comp.Idle?
    case SnapshotInputs => v.comp.Armed? && v.writer.Free?
    case ReserveOutput => v.comp.Inputs?
    case StoreSwapManifest => v.writer.Free? && v.comp.Output? && Built(v.comp.b)
    case CommitSwap => v.writer.SwapStored?
    case PublishSwap => v.writer.SwapCommitted? && v.comp.Output?
    case FailCompaction => v.comp.Inputs? || (v.comp.Output? && !v.writer.SwapCommitted?)
    case ReleaseInputs => v.comp.Done?
    case EndCompaction => v.comp == Done([])
    case BeginRead(id) => v.writer.Free? && id !in v.readers
    case EndRead(id) => id in v.readers && Present(d.runs, v.readers[id].runs)
    case DropRun(r) => r in v.obsolete && r !in v.runs && r !in InputsOf(v.comp)
      && (forall id :: id in v.readers ==> r !in v.readers[id].runs)
    case DropSidecar(r) => r in v.doomed
    case _ => false
  }

  ghost function Do(c: Config, s: State, a: Action): State
    requires Enabled(c, s, a)
  {
    match s.phase
    case Down => s.(phase := DoLoad(s.disk))
    case Scanning(live, nextSeq, todo) =>
      if a.Crash? then DoCrash(c, s, a.junk)
      else if a.ScanEntry? then DoScan(s, a.entry)
      else DoOpenLog(c, s)
    case Running(v) =>
      if a.Crash? then DoCrash(c, s, a.junk)
      else
        var (d', v') := DoIn(c, s.disk, v, a);
        State(d', Running(v'), DoHistory(c, v, s.h, a))
  }

  /** What a step of a running session does to the history. A logged batch counts
      from its append; a failed flush takes what it had buffered out of view, and
      with the log only the next rotation takes it off the disk. */
  function DoHistory(c: Config, v: Session, h: History, a: Action): History {
    match a
    case AppendLog =>
      if v.writer.Started? then h.(shown := h.shown + [v.writer.batch], logged := h.logged + [v.writer.batch]) else h
    case CommitFlush => h.(base := |h.shown|)
    case RemoveLog => h.(logged := h.shown)
    case FailFlush =>
      var left := Committed(h);
      h.(shown := left, logged := if c.durable then h.logged else left)
    case _ => h
  }

  /** The batches the committed runs hold. */
  function Committed(h: History): seq<Batch> {
    if h.base <= |h.shown| then h.shown[..h.base] else h.shown
  }

  /** The batches a crash leaves. */
  function Recovered(c: Config, h: History): seq<Batch> {
    if c.durable then h.logged else Committed(h)
  }

  /** A step of a running session: the new directory and the new memory. */
  ghost function DoIn(c: Config, d: Disk, v: Session, a: Action): (Disk, Session)
    requires EnabledIn(c, d, v, a)
  {
    match a
    case BeginWrite(b) => (d, v.(writer := Started(b), op := Some(b)))
    case AppendLog => (DoAppendLog(c, d, v.writer.batch), v.(writer := Logged(v.writer.batch)))
    case ApplyBatch => (d, v.(mem := ApplyAll(v.mem, v.writer.batch), writer := Applied))
    case EndWrite => (d, v.(writer := Free, op := None))
    case TakeMemtable => (d, DoTakeMemtable(v))
    case WriteRunTmp(who) => DoWriteRunTmp(d, v, who)
    case InstallRun(who) => DoInstallRun(d, v, who)
    case WriteSidecarTmp(who, extra) => DoWriteSidecarTmp(d, v, who, extra)
    case InstallSidecar(who) => DoInstallSidecar(d, v, who)
    case StoreManifest =>
      (DoStoreManifest(d, v.nextSeq, [v.writer.b.num] + v.runs), v.(writer := FlushStored(v.writer.b)))
    case CommitFlush => (RenameManifest(d), v.(writer := FlushCommitted(v.writer.b)))
    case PublishFlush => (d, DoPublishFlush(v))
    case RemoveLog => (d.(log := None), v.(writer := FlushUnlogged(v.writer.b), lost := map[]))
    case EndFlush => (if c.durable then d.(log := Some([])) else d, DoEndFlush(c, v))
    case FailFlush => (d, DoFailFlush(c, v))
    case StartCompaction => (d, v.(pending := false, stalled := false, comp := Armed))
    case SnapshotInputs => (d, v.(comp := if |v.runs| < 2 then Done([]) else Inputs(v.runs)))
    case ReserveOutput => (d, DoReserveOutput(v))
    case StoreSwapManifest =>
      (DoStoreManifest(d, v.nextSeq, Swapped(v.runs, v.comp.inputs, v.comp.b.num)), v.(writer := SwapStored))
    case CommitSwap => (RenameManifest(d), v.(writer := SwapCommitted))
    case PublishSwap => (d, DoPublishSwap(v))
    case FailCompaction => (d, DoFailCompaction(v))
    case ReleaseInputs => (d, v.(comp := Done([])))
    case EndCompaction => (d, v.(comp := Idle))
    case BeginRead(id) => (d, v.(readers := v.readers[id := Reader(v.mem, v.runs)]))
    case EndRead(id) => (d, v.(readers := v.readers - {id}))
    case DropRun(r) => (d.(runs := d.runs - {r}), v.(obsolete := v.obsolete - {r}, doomed := v.doomed + {r}))
    case DropSidecar(r) => (d.(sidecars := d.sidecars - {r}), v.(doomed := v.doomed - {r}))
  }

  function DoAppendLog(c: Config, d: Disk, batch: Batch): Disk {
    if c.durable then d.(log := Some((if d.log.Some? then d.log.value else []) + [batch])) else d
  }

  function DoTakeMemtable(v: Session): Session {
    v.(mem := map[], writer := Building(Build(v.nextSeq, v.mem, Reserved)), nextSeq := v.nextSeq + 1)
  }

  /** Write `MANIFEST.tmp`; the rename is a step of its own. */
  function DoStoreManifest(d: Disk, nextSeq: nat, live: seq<nat>): Disk {
    d.(temps := d.temps.(manifest := Some(Manifest(nextSeq, live))))
  }

  function DoPublishFlush(v: Session): Session
    requires v.writer.FlushCommitted?
  {
    v.(runs := [v.writer.b.num] + v.runs, writer := FlushPublished(v.writer.b))
  }

  function DoEndFlush(c: Config, v: Session): Session {
    v.(writer := Free, op := None, flushed := true, stalled := false, open := true, pending := v.pending || |v.runs| >= c.trigger)
  }

  /** A flush returns an error before its manifest is renamed: the lock is
      released with the buffer gone, and whatever files were written stay. */
  function DoFailFlush(c: Config, v: Session): Session
    requires v.writer.Building? || v.writer.FlushStored?
  {
    v.(writer := Free, op := None, lost := if c.durable then v.lost + v.writer.b.table else map[])
  }

  function DoReserveOutput(v: Session): Session
    requires v.comp.Inputs?
  {
    v.(comp := Output(v.comp.inputs, Build(v.nextSeq, map[], Reserved)), nextSeq := v.nextSeq + 1)
  }

  function DoPublishSwap(v: Session): Session
    requires v.comp.Output?
  {
    v.(runs := Swapped(v.runs, v.comp.inputs, v.comp.b.num), writer := Free,
       obsolete := v.obsolete + (set r | r in v.comp.inputs), comp := Done(v.comp.inputs))
  }

  /** A compaction returns an error before its manifest is renamed: whatever files
      were written stay, and so do the inputs. */
  function DoFailCompaction(v: Session): Session
    requires v.comp.Inputs? || v.comp.Output?
  {
    v.(comp := Done(v.comp.inputs), writer := if v.writer.SwapStored? then Free else v.writer, stalled := true)
  }

  function RenameManifest(d: Disk): Disk {
    d.(manifest := d.temps.manifest, temps := d.temps.(manifest := None))
  }

  /** The merge reads the input files; the flush writes the table it took. */
  function DoWriteRunTmp(d: Disk, v: Session, who: Who): (Disk, Session)
    requires BuildOf(v, who).Some?
  {
    var b := BuildOf(v, who).value;
    var table := if who == Flusher then b.table else Compacted(Contents(d.runs, v.comp.inputs));
    (d.(temps := d.temps.(runs := d.temps.runs[b.num := table])),
     SetBuild(v, who, b.(table := table, stage := RunTmp)))
  }

  function DoInstallRun(d: Disk, v: Session, who: Who): (Disk, Session)
    requires BuildOf(v, who).Some?
  {
    var b := BuildOf(v, who).value;
    (d.(runs := d.runs[b.num := RunOf(d.temps.runs, b.num)], temps := d.temps.(runs := d.temps.runs - {b.num})),
     SetBuild(v, who, b.(stage := RunFile)))
  }

  /** The filter knows the run's keys and answers yes for `extra` ones besides. */
  function DoWriteSidecarTmp(d: Disk, v: Session, who: Who, extra: set<Key>): (Disk, Session)
    requires BuildOf(v, who).Some?
  {
    var b := BuildOf(v, who).value;
    (d.(temps := d.temps.(sidecars := d.temps.sidecars[b.num := b.table.Keys + extra])),
     SetBuild(v, who, b.(stage := SidecarTmp)))
  }

  function DoInstallSidecar(d: Disk, v: Session, who: Who): (Disk, Session)
    requires BuildOf(v, who).Some?
  {
    var b := BuildOf(v, who).value;
    var keys := if b.num in d.temps.sidecars then d.temps.sidecars[b.num] else {};
    (d.(sidecars := d.sidecars[b.num := keys], temps := d.temps.(sidecars := d.temps.sidecars - {b.num})),
     SetBuild(v, who, b.(stage := SidecarFile)))
  }

  /** All memory is lost; temporaries may be torn. Without the log, so is every
      batch the committed runs do not hold. */
  function DoCrash(c: Config, s: State, junk: Temps): State {
    State(s.disk.(temps := junk), Down, s.h.(shown := Recovered(c, s.h), logged := Recovered(c, s.h)))
  }

  // ----------------------------------------------------------------- recovery

  function DoLoad(d: Disk): Phase {
    Scanning(LiveRuns(d), if d.manifest.Some? then d.manifest.value.nextSeq else 0, DirEntries(d))
  }

  /** One directory entry of the recovery scan: temporaries, runs the manifest
      does not name and sidecars of such runs are deleted. */
  function DoScan(s: State, e: DirEntry): State
    requires s.phase.Scanning?
  {
    var live := s.phase.live;
    var d := s.disk;
    var d' :=
      match e
      case RunEntry(x) => if x in live then d else d.(runs := d.runs - {x})
      case SidecarEntry(x) => if x in live then d else d.(sidecars := d.sidecars - {x})
      case RunTmpEntry(x) => d.(temps := d.temps.(runs := d.temps.runs - {x}))
      case SidecarTmpEntry(x) => d.(temps := d.temps.(sidecars := d.temps.sidecars - {x}))
      case ManifestTmpEntry => d.(temps := d.temps.(manifest := None));
    var next := if e.RunEntry? && e.run + 1 > s.phase.nextSeq then e.run + 1 else s.phase.nextSeq;
    s.(disk := d', phase := Scanning(live, next, s.phase.todo - {e}))
  }

  /** Open and replay the log; recovered writes are checkpointed by a flush that
      runs before anything else can take the lock. */
  function DoOpenLog(c: Config, s: State): State
    requires s.phase.Scanning?
  {
    var d := if c.durable then s.disk.(log := Some(if s.disk.log.Some? then s.disk.log.value else [])) else s.disk;
    var mem := LogTable(s.disk.log);
    var next := s.phase.nextSeq;
    var idle := Session(map[], s.phase.live, next, Free, None, Idle, false, false, false, true, map[], map[], {}, {});
    if mem == map[] then
      State(d, Running(idle), s.h.(base := |s.h.shown|))
    else
      State(d, Running(idle.(writer := Building(Build(next, mem, Reserved)), nextSeq := next + 1, open := false)), s.h)
  }

  // --------------------------------------------------------------------- runs

  /** A fresh, empty directory before the first open. */
  function Initial(): State {
    State(Disk(map[], map[], None, None, Temps(map[], map[], None)), Down, History([], 0, []))
  }

  /** The states a sequence of actions passes through. */
  ghost predicate IsRun(c: Config, actions: seq<Action>, states: seq<State>) {
    |states| == |actions| + 1 && states[0] == Initial() &&
    forall i :: 0 <= i < |actions| ==>
      Enabled(c, states[i], actions[i]) && states[i + 1] == Do(c, states[i], actions[i])
  }

  ghost function Last(states: seq<State>): State
    requires states != []
  {
    states[|states| - 1]
  }

  lemma Extend(c: Config, actions: seq<Action>, states: seq<State>, a: Action)
    requires IsRun(c, actions, states) && Enabled(c, Last(states), a)
    ensures IsRun(c, actions + [a], states + [Do(c, Last(states), a)])
  {
    hide Enabled, Do;
  }
}

/** The byte accounting of a buffer. */
module Sizes {
  import opened Records

  function EntrySize(k: Key, r: Record): nat { |k| + r.ValueLen() }

  /** Summed key and value bytes of a table. */
  ghost function SizeOf(t: Table): nat {
    if t == map[] then 0
    else
      var k :| k in t;
      EntrySize(k, t[k]) + SizeOf(t - {k})
  }

  /** Every key counts with its own bytes and those of its value. */
  lemma SizeCounts(t: Table, k: Key)
    requires k in t
    ensures SizeOf(t) == |k| + (if t[k].Value? then |t[k].value| else 0) + SizeOf(t - {k}) && SizeOf(map[]) == 0
  {
    SizeSplit(t, k);
  }

  /** Any key may be split off first. */
  lemma {:induction false} SizeSplit(t: Table, k: Key)
    requires k in t
    ensures SizeOf(t) == EntrySize(k, t[k]) + SizeOf(t - {k})
  {
    var j :| j in t && SizeOf(t) == EntrySize(j, t[j]) + SizeOf(t - {j});
    if j != k {
      SizeSplit(t - {j}, k);
      SizeSplit(t - {k}, j);
      assert t - {j} - {k} == t - {k} - {j};
    }
  }
}
