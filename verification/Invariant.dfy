/** The inductive invariant of the step machine: what the directory, the live run
    list, an in-flight flush, an in-flight compaction, the readers and the log owe
    each other. */
module Invariant {
  import opened Bytes
  import opened Records
  import opened Protocol

  predicate Distinct(s: seq<nat>) {
    forall i, j :: 0 <= i < j < |s| ==> s[i] != s[j]
  }

  /** The number a flush has reserved and not yet published. */
  function FlushNum(w: Writer): Option<nat> {
    match w
    case Building(b) => Some(b.num)
    case FlushStored(b) => Some(b.num)
    case FlushCommitted(b) => Some(b.num)
    case _ => None
  }

  function CompNum(comp: Compaction): Option<nat> {
    if comp.Output? then Some(comp.b.num) else None
  }

  /** The records the memory still owes to a run: the memtable, or the table a
      flush has taken and not yet published. */
  function Buffered(mem: Table, w: Writer): Table {
    match w
    case Logged(b) => ApplyAll(mem, b)
    case Building(b) => b.table
    case FlushStored(b) => b.table
    case FlushCommitted(b) => b.table
    case _ => mem
  }

  /** What the log replays to: the records of failed flushes under those the
      memory, or a run published since, holds. */
  function InLog(lost: Table, mem: Table, w: Writer): Table {
    lost + if w.FlushPublished? then w.b.table else Buffered(mem, w)
  }

  // --------------------------------------------------------------- the clauses
  // Each clause is a predicate of just the parts of the state it speaks about.

  predicate BuildInv(d: Disk, b: Build) {
    match b.stage
    case Reserved => b.num !in d.runs && b.num !in d.sidecars
    case RunTmp => b.num !in d.runs && b.num !in d.sidecars && b.num in d.temps.runs && d.temps.runs[b.num] == b.table
    case RunFile => b.num in d.runs && d.runs[b.num] == b.table && b.num !in d.sidecars
    case SidecarTmp => b.num in d.runs && d.runs[b.num] == b.table && b.num !in d.sidecars
                       && b.num in d.temps.sidecars && b.table.Keys <= d.temps.sidecars[b.num]
    case SidecarFile => b.num in d.runs && d.runs[b.num] == b.table
  }

  /** Every sequence number in use is below the counter. */
  predicate BelowInv(files: map<nat, Table>, sidecars: map<nat, set<Key>>, obsolete: set<nat>, doomed: set<nat>, next: nat) {
    && (forall x :: x in files ==> x < next)
    && (forall x :: x in sidecars ==> x < next)
    && (forall x :: x in obsolete ==> x < next)
    && (forall x :: x in doomed ==> x < next)
  }

  /** A number handed out for a run that is not yet published is used by nothing else. */
  predicate ReservedInv(num: Option<nat>, other: Option<nat>, runs: seq<nat>, obsolete: set<nat>, doomed: set<nat>, next: nat) {
    num.Some? ==> num.value < next && num.value !in runs && num.value !in obsolete && num.value !in doomed && num != other
  }

  /** The live list has no duplicates and no superseded run. */
  predicate ListInv(runs: seq<nat>, obsolete: set<nat>, doomed: set<nat>) {
    Distinct(runs) && forall x :: x in runs ==> x !in obsolete && x !in doomed
  }

  /** No run held by the live list, a reader or a compaction loses its file. */
  predicate FilesInv(files: map<nat, Table>, runs: seq<nat>, inputs: seq<nat>, readers: map<nat, Reader>) {
    && Present(files, runs)
    && Present(files, inputs)
    && forall id :: id in readers ==> Present(files, readers[id].runs)
  }

  /** A filter knows every key of the run it sits beside. */
  predicate SidecarsInv(files: map<nat, Table>, sidecars: map<nat, set<Key>>) {
    forall x :: x in sidecars && x in files ==> files[x].Keys <= sidecars[x]
  }

  /** The inputs are the oldest runs of the live list, however many flushes have
      been published since the snapshot, and the output holds their merge. */
  predicate CompInv(d: Disk, runs: seq<nat>, comp: Compaction) {
    && (comp.Inputs? || comp.Output? ==>
          2 <= |comp.inputs| <= |runs| && runs[|runs| - |comp.inputs|..] == comp.inputs)
    && (comp.Output? ==> BuildInv(d, comp.b))
    && (comp.Output? && comp.b.stage != Reserved ==> comp.b.table == Compacted(Contents(d.runs, comp.inputs)))
  }

  predicate FlushInv(d: Disk, mem: Table, runs: seq<nat>, w: Writer) {
    match w
    case Building(b) => BuildInv(d, b) && mem == map[]
    case FlushStored(b) => Built(b) && BuildInv(d, b) && mem == map[]
    case FlushCommitted(b) => Built(b) && BuildInv(d, b) && mem == map[]
    case FlushPublished(b) => mem == map[] && runs != [] && runs[0] == b.num && RunOf(d.runs, b.num) == b.table
    case FlushUnlogged(b) => mem == map[]
    case _ => true
  }

  /** What the manifest names, and what it is about to name. */
  predicate ManifestInv(d: Disk, runs: seq<nat>, w: Writer, comp: Compaction) {
    match w
    case FlushStored(b) => LiveRuns(d) == runs && d.temps.manifest.Some? && d.temps.manifest.value.live == [b.num] + runs
    case FlushCommitted(b) => LiveRuns(d) == [b.num] + runs
    case SwapStored => LiveRuns(d) == runs && comp.Output? && Built(comp.b) && d.temps.manifest.Some?
                       && d.temps.manifest.value.live == Swapped(runs, comp.inputs, comp.b.num)
    case SwapCommitted => comp.Output? && Built(comp.b) && LiveRuns(d) == Swapped(runs, comp.inputs, comp.b.num)
    case _ => LiveRuns(d) == runs
  }

  /** The log replays to the buffered records over those of failed flushes. */
  predicate LogInv(durable: bool, log: Option<seq<Batch>>, lost: Table, mem: Table, w: Writer) {
    if !durable then log.None?
    else if w.FlushUnlogged? then log.None?
    else LogTable(log) == InLog(lost, mem, w)
  }

  /** The database is the fold of what is shown, and the log over the runs the
      fold of what is logged. */
  predicate HistoryInv(files: map<nat, Table>, runs: seq<nat>, buffered: Table, inLog: Table, h: History) {
    && Fold(h.shown) == View(buffered, Contents(files, runs))
    && Fold(h.logged) == View(inLog, Contents(files, runs))
  }

  /** Only a failed flush, and only with the log, sets the two histories apart. */
  predicate LostInv(durable: bool, lost: Table, w: Writer, h: History) {
    && |h.shown| <= |h.logged|
    && (!durable || w.FlushUnlogged? ==> lost == map[] && h.logged == h.shown)
  }

  /** Once a flush has committed, the committed runs hold the whole history; until
      then they do not hold the write being served. */
  predicate CommittedInv(w: Writer, op: Option<Batch>, h: History) {
    if w.FlushCommitted? || w.FlushPublished? || w.FlushUnlogged? then h.base == |h.shown|
    else op.Some? && !w.Started? ==> h.base < |h.shown|
  }

  /** In an open session the committed runs are the fold of the first `base`
      batches. Only the checkpoint of a log happens before. */
  predicate BaseInv(durable: bool, open: bool, files: map<nat, Table>, live: seq<nat>, h: History) {
    && h.base <= |h.shown| && (!durable ==> open)
    && (open ==> Fold(h.shown[..h.base]) == View(map[], Contents(files, live)))
  }

  predicate EndsWith(batches: seq<Batch>, b: Batch) {
    batches != [] && batches[|batches| - 1] == b
  }

  /** The write being served is the last batch of the history once it is logged. */
  predicate OpInv(w: Writer, op: Option<Batch>, h: History) {
    && (w.Free? || Swapping(w) ==> op.None?)
    && (w.Started? || w.Logged? ==> op == Some(w.batch))
    && (w.Applied? ==> op.Some?)
    && (op.Some? && !w.Started? ==> EndsWith(h.shown, op.value) && EndsWith(h.logged, op.value))
  }

  /** Until the checkpoint of a recovered log is done, it holds the lock. */
  predicate OpenInv(open: bool, op: Option<Batch>, w: Writer) {
    open || (op.None? && (w.Building? || w.FlushStored? || w.FlushCommitted? || w.FlushPublished? || w.FlushUnlogged?))
  }

  /** Unless a compaction has failed since, after a flush either a compaction is
      requested, or one is running whose swap brings the list below the trigger,
      or the list is below it already. */
  predicate SignalInv(trigger: nat, count: nat, w: Writer, comp: Compaction, pending: bool, stalled: bool, flushed: bool) {
    flushed && !pending && !stalled && !w.FlushPublished? && !w.FlushUnlogged? ==>
      match comp
      case Armed => true
      case Inputs(ins) => count - |ins| + 1 < trigger
      case Output(ins, _) => count - |ins| + 1 < trigger
      case _ => count < trigger
  }

  /** Whoever is not in the middle of a write sees a buffer that is empty or
      below capacity. */
  ghost predicate CapacityInv(c: Config, mem: Table, w: Writer) {
    w.Free? || w.Started? || Swapping(w) ==> !Full(c, mem)
  }

  /** What the holder of the lock owes to the log, the buffer and the compactor. */
  ghost predicate LockInv(c: Config, log: Option<seq<Batch>>, v: Session, h: History) {
    && LogInv(c.durable, log, v.lost, v.mem, v.writer)
    && LostInv(c.durable, v.lost, v.writer, h)
    && CommittedInv(v.writer, v.op, h)
    && OpInv(v.writer, v.op, h)
    && OpenInv(v.open, v.op, v.writer)
    && SignalInv(c.trigger, |v.runs|, v.writer, v.comp, v.pending, v.stalled, v.flushed)
    && CapacityInv(c, v.mem, v.writer)
  }

  ghost predicate SessionInv(c: Config, d: Disk, v: Session, h: History) {
    && BelowInv(d.runs, d.sidecars, v.obsolete, v.doomed, v.nextSeq)
    && ReservedInv(FlushNum(v.writer), CompNum(v.comp), v.runs, v.obsolete, v.doomed, v.nextSeq)
    && ReservedInv(CompNum(v.comp), FlushNum(v.writer), v.runs, v.obsolete, v.doomed, v.nextSeq)
    && ListInv(v.runs, v.obsolete, v.doomed)
    && FilesInv(d.runs, v.runs, InputsOf(v.comp), v.readers)
    && SidecarsInv(d.runs, d.sidecars)
    && CompInv(d, v.runs, v.comp)
    && FlushInv(d, v.mem, v.runs, v.writer)
    && ManifestInv(d, v.runs, v.writer, v.comp)
    && HistoryInv(d.runs, v.runs, Buffered(v.mem, v.writer), InLog(v.lost, v.mem, v.writer), h)
    && BaseInv(c.durable, v.open, d.runs, LiveRuns(d), h)
    && LockInv(c, d.log, v, h)
  }

  /** What a directory owes to the history it has to recover. */
  predicate DiskInv(c: Config, d: Disk, h: History) {
    && Present(d.runs, LiveRuns(d)) && Distinct(LiveRuns(d)) && SidecarsInv(d.runs, d.sidecars)
    && (!c.durable ==> d.log.None? && h.base == |h.shown|)
    && h.base <= |h.shown| && h.logged == h.shown
    && Fold(h.shown) == View(LogTable(d.log), Contents(d.runs, LiveRuns(d)))
  }

  /** What the recovery scan has still to visit. */
  predicate ScanInv(d: Disk, live: seq<nat>, nextSeq: nat, todo: set<DirEntry>) {
    && live == LiveRuns(d)
    && (forall x :: x in d.runs ==> x < nextSeq || RunEntry(x) in todo)
    && (forall x :: x in d.runs && x !in live ==> RunEntry(x) in todo)
    && (forall x :: x in d.sidecars && x !in live ==> SidecarEntry(x) in todo)
    && (forall x :: x in d.temps.runs ==> RunTmpEntry(x) in todo)
    && (forall x :: x in d.temps.sidecars ==> SidecarTmpEntry(x) in todo)
    && (d.temps.manifest.Some? ==> ManifestTmpEntry in todo)
  }

  ghost predicate Inv(c: Config, s: State) {
    match s.phase
    case Down => DiskInv(c, s.disk, s.h)
    case Scanning(live, nextSeq, todo) =>
      DiskInv(c, s.disk, s.h) && ScanInv(s.disk, live, nextSeq, todo)
    case Running(v) => SessionInv(c, s.disk, v, s.h)
  }

  // ------------------------------------------------------------------- framing

  /** Contents of runs that keep their file do not change. */
  lemma ContentsFrame(files: map<nat, Table>, files': map<nat, Table>, runs: seq<nat>)
    requires forall r :: r in runs ==> RunOf(files, r) == RunOf(files', r)
    ensures Contents(files, runs) == Contents(files', runs)
  {
    forall i | 0 <= i < |runs| ensures Contents(files, runs)[i] == Contents(files', runs)[i] {
      assert runs[i] in runs;
    }
  }

  predicate SameAt<V(==)>(m: map<nat, V>, m': map<nat, V>, x: nat) {
    (x in m <==> x in m') && (x in m ==> m[x] == m'[x])
  }

  /** A run being written is not disturbed by changes under other names. */
  lemma BuildFrame(d: Disk, d': Disk, b: Build)
    requires BuildInv(d, b)
    requires SameAt(d.runs, d'.runs, b.num) && SameAt(d.sidecars, d'.sidecars, b.num)
    requires SameAt(d.temps.runs, d'.temps.runs, b.num) && SameAt(d.temps.sidecars, d'.temps.sidecars, b.num)
    ensures BuildInv(d', b)
  {
  }

  lemma ContentsConcat(files: map<nat, Table>, a: seq<nat>, b: seq<nat>)
    ensures Contents(files, a + b) == Contents(files, a) + Contents(files, b)
  {
  }

  lemma {:induction false} WithoutNone(runs: seq<nat>, inputs: seq<nat>)
    requires forall r :: r in runs ==> r !in inputs
    ensures Without(runs, inputs) == runs
  {
    if runs != [] {
      assert runs[0] in runs;
      WithoutNone(runs[1..], inputs);
      assert runs == [runs[0]] + runs[1..];
    }
  }

  lemma {:induction false} WithoutAll(runs: seq<nat>, inputs: seq<nat>)
    requires forall r :: r in runs ==> r in inputs
    ensures Without(runs, inputs) == []
  {
    if runs != [] {
      assert runs[0] in runs;
      WithoutAll(runs[1..], inputs);
    }
  }

  lemma {:induction false} WithoutConcat(a: seq<nat>, b: seq<nat>, inputs: seq<nat>)
    ensures Without(a + b, inputs) == Without(a, inputs) + Without(b, inputs)
  {
    if a == [] {
      assert a + b == b;
    } else {
      assert (a + b)[1..] == a[1..] + b;
      WithoutConcat(a[1..], b, inputs);
    }
  }

  /** Filtering the inputs out by identity leaves exactly the runs published
      since the snapshot. */
  lemma WithoutSuffix(newer: seq<nat>, inputs: seq<nat>)
    requires Distinct(newer + inputs)
    ensures Without(newer + inputs, inputs) == newer
  {
    forall i, j | 0 <= i < |newer| && 0 <= j < |inputs| ensures newer[i] != inputs[j] {
      assert (newer + inputs)[i] == newer[i] && (newer + inputs)[|newer| + j] == inputs[j];
    }
    WithoutConcat(newer, inputs, inputs);
    WithoutNone(newer, inputs);
    WithoutAll(inputs, inputs);
  }

  // ---------------------------------------------------- a compaction's swap

  /** The swap installs (newer runs ++ [output]), distinct and present, and the
      database read through it is the one read through the old list. */
  lemma SwapIsInvisible(d: Disk, v: Session)
    requires ListInv(v.runs, v.obsolete, v.doomed) && FilesInv(d.runs, v.runs, InputsOf(v.comp), v.readers)
    requires ReservedInv(CompNum(v.comp), FlushNum(v.writer), v.runs, v.obsolete, v.doomed, v.nextSeq)
    requires CompInv(d, v.runs, v.comp) && v.comp.Output? && Built(v.comp.b)
    ensures var ins, out := v.comp.inputs, v.comp.b.num;
            var newer := v.runs[..|v.runs| - |ins|];
            var runs' := Swapped(v.runs, ins, out);
            && runs' == newer + [out]
            && Distinct(runs') && Present(d.runs, runs')
            && forall mem :: View(mem, Contents(d.runs, runs')) == View(mem, Contents(d.runs, v.runs))
  {
    hide View, Compacted;
    var ins, out := v.comp.inputs, v.comp.b.num;
    var newer := v.runs[..|v.runs| - |ins|];
    assert v.runs == newer + ins;
    WithoutSuffix(newer, ins);
    forall r | r in newer ensures r in v.runs { }
    MergedReadsSame(d.runs, newer, ins, out);
  }

  /** A run that holds the merge of others reads as they do below any newer runs. */
  lemma MergedReadsSame(tables: map<nat, Table>, newer: seq<nat>, ins: seq<nat>, out: nat)
    requires RunOf(tables, out) == Compacted(Contents(tables, ins))
    ensures forall mem :: View(mem, Contents(tables, newer + [out])) == View(mem, Contents(tables, newer + ins))
  {
    hide View, Compacted;
    ContentsConcat(tables, newer, ins);
    ContentsConcat(tables, newer, [out]);
    assert Contents(tables, [out]) == [Compacted(Contents(tables, ins))];
    forall mem ensures View(mem, Contents(tables, newer + [out])) == View(mem, Contents(tables, newer + ins)) {
      CompactionPreservesView(mem, Contents(tables, newer), Contents(tables, ins));
    }
  }
}
