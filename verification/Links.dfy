/** How the bytes and handles an engine holds agree with a state of the step
    machine, and what the machine's steps amount to on either side. */
module Links {
  import opened Bytes
  import opened Records
  import opened Codec
  import opened Wal
  import opened Cache
  import opened RunLayout
  import opened SsTables
  import opened Reads
  import opened Scans
  import opened Protocol
  import opened Invariant
  import ManifestText

  /** The database directory: run files, manifest and temporaries as they are
      stored. A filter is the set of keys it answers yes for. */
  datatype Dir = Dir(
    runs: map<nat, seq<byte>>,
    sidecars: map<nat, set<Key>>,
    manifest: Option<string>,
    runTmps: map<nat, seq<byte>>,
    sidecarTmps: map<nat, set<Key>>,
    manifestTmp: Option<string>)

  /** A compaction between its lock-protected parts. */
  datatype Job = NoJob | Merging(inputs: seq<Run>) | Merged(inputs: seq<Run>, output: Run)

  /** What a read cloned under the lock: the runs and, for a scan, the buffered
      entries of its range. A key found in the buffer needs neither. */
  datatype Snap =
    | Getting(key: Key, runs: seq<Run>)
    | Ranging(range: Range, entries: seq<Entry>, runs: seq<Run>)

  // --------------------------------------------------------------- agreement

  /** Every run file holds the bytes of the table the machine has under its name. */
  ghost predicate FilesMatch(files: map<nat, seq<byte>>, tables: map<nat, Table>) {
    files.Keys == tables.Keys && forall n :: n in tables ==> Fits(tables[n]) && files[n] == Image(tables[n])
  }

  /** The text of a manifest that names runs by number. */
  function ManifestBody(m: Manifest): string {
    ManifestText.Text(ManifestText.ManifestFile(m.nextSeq, ManifestText.Names(m.live)))
  }

  /** All numbers in it are 64-bit. */
  predicate Narrow(m: Manifest) {
    m.nextSeq < U64 && forall i :: 0 <= i < |m.live| ==> m.live[i] < U64
  }

  ghost predicate ManifestMatches(text: Option<string>, m: Option<Manifest>) {
    (text.Some? <==> m.Some?) && (m.Some? ==> Narrow(m.value) && text.value == ManifestBody(m.value))
  }

  /** Temporaries agree by name; what they hold matters only when renamed. */
  ghost predicate DirMatches(dir: Dir, d: Disk) {
    && FilesMatch(dir.runs, d.runs) && dir.sidecars == d.sidecars && ManifestMatches(dir.manifest, d.manifest)
    && dir.runTmps.Keys == d.temps.runs.Keys && dir.sidecarTmps == d.temps.sidecars
    && (dir.manifestTmp.Some? <==> d.temps.manifest.Some?)
  }

  ghost predicate LogMatches(durable: bool, wal: Option<seq<seq<byte>>>, log: Option<seq<Batch>>) {
    if !durable then log.None?
    else (wal.Some? <==> log.Some?) && (log.Some? ==> AllDecode(wal.value) && DecodeRecords(wal.value) == log.value)
  }

  /** The handles are open on the runs the machine lists. */
  ghost predicate RunsMatch(tables: map<nat, Table>, nums: seq<nat>, runs: seq<Run>) {
    |runs| == |nums| && forall i :: 0 <= i < |runs| ==> runs[i].num == nums[i] && RunHolds(runs[i], RunOf(tables, nums[i]))
  }

  ghost predicate JobMatches(tables: map<nat, Table>, comp: Compaction, job: Job) {
    match job
    case NoJob => comp.Idle?
    case Merging(ins) => comp.Inputs? && RunsMatch(tables, comp.inputs, ins)
    case Merged(ins, out) => comp.Output? && Built(comp.b) && RunsMatch(tables, comp.inputs, ins)
                             && out.num == comp.b.num && RunHolds(out, comp.b.table)
  }

  /** A read holds what the machine's reader cloned. */
  ghost predicate SnapMatches(tables: map<nat, Table>, reader: Reader, snap: Snap) {
    && RunsMatch(tables, reader.runs, snap.runs)
    && match snap
       case Getting(key, _) => key !in reader.mem
       case Ranging(range, entries, _) => entries == Clip(Listing(reader.mem), range)
  }

  ghost predicate SnapsMatch(tables: map<nat, Table>, readers: map<nat, Reader>, snaps: map<nat, Snap>) {
    readers.Keys == snaps.Keys && forall id :: id in snaps ==> SnapMatches(tables, readers[id], snaps[id])
  }

  function JobRuns(job: Job): seq<Run> {
    match job
    case NoJob => []
    case Merging(ins) => ins
    case Merged(ins, out) => ins + [out]
  }

  /** Every handle somebody holds. */
  ghost function OpenHandles(runs: seq<Run>, job: Job, snaps: map<nat, Snap>): set<Run> {
    (set r | r in runs) + (set r | r in JobRuns(job)) + (set id, r | id in snaps && r in snaps[id].runs :: r)
  }

  function Nums(runs: seq<Run>): (n: seq<nat>)
    ensures |n| == |runs| && forall i :: 0 <= i < |n| ==> n[i] == runs[i].num
  {
    seq(|runs|, i requires 0 <= i < |runs| => runs[i].num)
  }

  /** Some read still holds the run. */
  predicate IsHeld(snaps: map<nat, Snap>, num: nat) {
    exists id :: id in snaps && num in Nums(snaps[id].runs)
  }

  /** No read of the machine's holds the run. */
  predicate Unread(readers: map<nat, Reader>, num: nat) {
    forall id :: id in readers ==> num !in readers[id].runs
  }

  // ------------------------------------------------------------------- handles

  lemma RunsMatchHold(tables: map<nat, Table>, nums: seq<nat>, runs: seq<Run>)
    requires RunsMatch(tables, nums, runs)
    ensures RunsHold(runs, Contents(tables, nums)) && |runs| == |nums| && Nums(runs) == nums
  {
    hide RunHolds;
  }

  /** Handles stay on their runs as long as the files do. */
  lemma MatchFrame(tables: map<nat, Table>, tables': map<nat, Table>, nums: seq<nat>, runs: seq<Run>)
    requires RunsMatch(tables, nums, runs) && forall n :: n in nums ==> RunOf(tables, n) == RunOf(tables', n)
    ensures RunsMatch(tables', nums, runs)
  {
    hide RunHolds;
  }

  lemma JobFrame(tables: map<nat, Table>, tables': map<nat, Table>, comp: Compaction, job: Job)
    requires JobMatches(tables, comp, job) && forall n :: n in InputsOf(comp) ==> RunOf(tables, n) == RunOf(tables', n)
    ensures JobMatches(tables', comp, job)
  {
    hide RunsMatch, RunHolds;
    if job.Merging? || job.Merged? { MatchFrame(tables, tables', comp.inputs, job.inputs); }
  }

  lemma SnapsFrame(tables: map<nat, Table>, tables': map<nat, Table>, readers: map<nat, Reader>, snaps: map<nat, Snap>)
    requires SnapsMatch(tables, readers, snaps)
    requires forall id, n :: id in readers && n in readers[id].runs ==> RunOf(tables, n) == RunOf(tables', n)
    ensures SnapsMatch(tables', readers, snaps)
  {
    hide RunsMatch;
    forall id | id in snaps ensures SnapMatches(tables', readers[id], snaps[id]) {
      assert SnapMatches(tables, readers[id], snaps[id]);
      MatchFrame(tables, tables', readers[id].runs, snaps[id].runs);
    }
  }

  /** One more file, under a number nobody uses. */
  lemma InstalledFrame(tables: map<nat, Table>, num: nat, t: Table, nums: seq<nat>, runs: seq<Run>, readers: map<nat, Reader>, snaps: map<nat, Snap>)
    requires RunsMatch(tables, nums, runs) && num !in nums
    requires SnapsMatch(tables, readers, snaps) && Unread(readers, num)
    ensures RunsMatch(tables[num := t], nums, runs) && SnapsMatch(tables[num := t], readers, snaps)
  {
    hide RunsMatch, SnapsMatch;
    MatchFrame(tables, tables[num := t], nums, runs);
    SnapsFrame(tables, tables[num := t], readers, snaps);
  }

  /** One file fewer, of a run nobody uses. */
  lemma DroppedFrame(tables: map<nat, Table>, num: nat, nums: seq<nat>, runs: seq<Run>, readers: map<nat, Reader>, snaps: map<nat, Snap>)
    requires RunsMatch(tables, nums, runs) && num !in nums
    requires SnapsMatch(tables, readers, snaps) && Unread(readers, num)
    ensures RunsMatch(tables - {num}, nums, runs) && SnapsMatch(tables - {num}, readers, snaps)
  {
    hide RunsMatch, SnapsMatch;
    MatchFrame(tables, tables - {num}, nums, runs);
    SnapsFrame(tables, tables - {num}, readers, snaps);
  }

  /** Reads and the machine's readers hold the same runs. */
  lemma HeldMeansRead(tables: map<nat, Table>, readers: map<nat, Reader>, snaps: map<nat, Snap>, num: nat)
    requires SnapsMatch(tables, readers, snaps)
    ensures IsHeld(snaps, num) <==> !Unread(readers, num)
  {
    hide RunHolds, Clip;
    forall id | id in snaps ensures Nums(snaps[id].runs) == readers[id].runs {
      assert SnapMatches(tables, readers[id], snaps[id]);
    }
  }

  lemma SnapHolds(tables: map<nat, Table>, readers: map<nat, Reader>, snaps: map<nat, Snap>, id: nat)
    requires SnapsMatch(tables, readers, snaps) && id in snaps
    ensures id in readers && SnapMatches(tables, readers[id], snaps[id])
    ensures RunsHold(snaps[id].runs, Contents(tables, readers[id].runs))
  {
    hide RunHolds, Clip, Listing;
    assert readers.Keys == snaps.Keys;
    RunsMatchHold(tables, readers[id].runs, snaps[id].runs);
  }

  lemma SnapAdded(tables: map<nat, Table>, readers: map<nat, Reader>, snaps: map<nat, Snap>, id: nat, reader: Reader, snap: Snap)
    requires SnapsMatch(tables, readers, snaps) && SnapMatches(tables, reader, snap)
    ensures SnapsMatch(tables, readers[id := reader], snaps[id := snap])
  {
    hide SnapMatches;
  }

  lemma SnapDropped(tables: map<nat, Table>, readers: map<nat, Reader>, snaps: map<nat, Snap>, id: nat)
    requires SnapsMatch(tables, readers, snaps)
    ensures SnapsMatch(tables, readers - {id}, snaps - {id})
  {
    hide SnapMatches;
  }

  /** Another read holds no fewer runs. */
  lemma StillHeld(snaps: map<nat, Snap>, id: nat, snap: Snap, num: nat)
    requires IsHeld(snaps, num) && id !in snaps
    ensures IsHeld(snaps[id := snap], num)
  {
    var j :| j in snaps && num in Nums(snaps[j].runs);
    assert j in snaps[id := snap] && snaps[id := snap][j] == snaps[j];
  }

  /** A run held only by the read that ends is one of that read's. */
  lemma HeldOnlyHere(snaps: map<nat, Snap>, id: nat, num: nat)
    requires IsHeld(snaps, num) && !IsHeld(snaps - {id}, num)
    ensures id in snaps && num in Nums(snaps[id].runs)
  {
    var j :| j in snaps && num in Nums(snaps[j].runs);
    if j != id { HeldByOther(snaps, id, j, num); }
  }

  lemma HeldByOther(snaps: map<nat, Snap>, id: nat, j: nat, num: nat)
    requires j in snaps && j != id && num in Nums(snaps[j].runs)
    ensures IsHeld(snaps - {id}, num)
  {
    assert j in snaps - {id} && (snaps - {id})[j] == snaps[j];
  }

  /** The superseded runs of a list that no read holds. */
  function Loose(retired: set<nat>, snaps: map<nat, Snap>, nums: seq<nat>): set<nat> {
    set n | n in nums && n in retired && !IsHeld(snaps, n)
  }

  /** Deleting superseded runs disturbs no run of a list without them. */
  lemma LooseFrame(tables: map<nat, Table>, retired: set<nat>, snaps: map<nat, Snap>, gone: seq<nat>, nums: seq<nat>)
    requires forall n :: n in retired ==> n !in nums
    ensures forall n :: n in nums ==> RunOf(tables - Loose(retired, snaps, gone), n) == RunOf(tables, n)
  {
    hide IsHeld;
  }

  lemma JobNotDone(tables: map<nat, Table>, comp: Compaction, job: Job)
    requires JobMatches(tables, comp, job)
    ensures !comp.Done?
  {
  }

  lemma SnapshotJob(tables: map<nat, Table>, comp: Compaction, job: Job)
    requires JobMatches(tables, comp, job) && job.Merging?
    ensures comp.Inputs? && RunsMatch(tables, comp.inputs, job.inputs) && RunsHold(job.inputs, Contents(tables, comp.inputs))
  {
    hide RunHolds;
    RunsMatchHold(tables, comp.inputs, job.inputs);
  }

  lemma MergedJob(tables: map<nat, Table>, nums: seq<nat>, job: Job, run: Run, t: Table, comp: Compaction)
    requires job.Merging? && RunsMatch(tables, nums, job.inputs) && Present(tables, nums) && run.num !in tables
    requires comp.Output? && comp.inputs == nums && Built(comp.b) && comp.b.num == run.num && comp.b.table == t && RunHolds(run, t)
    ensures JobMatches(tables[run.num := t], comp, Merged(job.inputs, run))
  {
    hide RunHolds, RunsMatch;
    MatchFrame(tables, tables[run.num := t], nums, job.inputs);
  }

  lemma KeptMatch(tables: map<nat, Table>, nums: seq<nat>, runs: seq<Run>, kept: seq<Run>, keptNums: seq<nat>, out: Run)
    requires RunsMatch(tables, nums, runs) && Nums(kept) == keptNums && (forall r :: r in kept ==> r in runs)
    requires RunHolds(out, RunOf(tables, out.num))
    ensures RunsMatch(tables, keptNums + [out.num], kept + [out])
  {
    hide RunHolds;
    forall i | 0 <= i < |kept| ensures RunHolds(kept[i], RunOf(tables, keptNums[i])) {
      assert kept[i] in runs;
    }
  }

  /** Keep the runs that are not inputs. A file number stands for its handle. */
  method KeepNewer(runs: seq<Run>, inputs: seq<Run>) returns (kept: seq<Run>)
    ensures Nums(kept) == Without(Nums(runs), Nums(inputs))
    ensures forall r :: r in kept ==> r in runs
  {
    hide Without;
    kept := [];
    WithoutNone([], Nums(inputs));
    for i := 0 to |runs|
      invariant Nums(kept) == Without(Nums(runs[..i]), Nums(inputs))
      invariant forall r :: r in kept ==> r in runs
    {
      KeepStep(kept, runs, i, inputs);
      if runs[i].num !in Nums(inputs) {
        kept := kept + [runs[i]];
      }
    }
    assert runs[..|runs|] == runs;
  }

  lemma KeepStep(kept: seq<Run>, runs: seq<Run>, i: nat, inputs: seq<Run>)
    requires i < |runs| && Nums(kept) == Without(Nums(runs[..i]), Nums(inputs))
    ensures Nums(if runs[i].num in Nums(inputs) then kept else kept + [runs[i]]) == Without(Nums(runs[..i + 1]), Nums(inputs))
  {
    assert Nums(runs[..i + 1]) == Nums(runs[..i]) + [runs[i].num];
    WithoutConcat(Nums(runs[..i]), [runs[i].num], Nums(inputs));
  }

  // --------------------------------------------------------------------- cache

  /** Cached blocks belong to runs opened so far, each under its own id. */
  ghost predicate CacheMatches(truth: Truth, nextId: nat, handles: set<Run>) {
    && (forall r :: r in handles ==> Cacheable(truth, r) && r.id < nextId)
    && (forall k: BlockKey :: k.runId >= nextId ==> truth(k) == None)
  }

  /** What the cache may hold once one more run is open. */
  ghost function WithRun(truth: Truth, id: nat, t: SsTable): Truth {
    (k: BlockKey) =>
      if k.runId != id then truth(k)
      else if k.blockIdx < |t.index| then BlockOption(t, k.blockIdx) else None
  }

  /** A run opened under a new id is cacheable, and nothing else changes. */
  lemma OpenedIsCacheable(truth: Truth, nextId: nat, handles: set<Run>, r: Run)
    requires CacheMatches(truth, nextId, handles) && r.id == nextId && |r.table.index| <= U32
    ensures CacheMatches(WithRun(truth, nextId, r.table), nextId + 1, handles + {r})
    ensures forall k :: truth(k).Some? ==> WithRun(truth, nextId, r.table)(k) == truth(k)
  {
    hide BlockOption;
    var truth' := WithRun(truth, nextId, r.table);
    assert Cacheable(truth', r) by {
      forall i | 0 <= i < |r.table.index| ensures i % U32 == i { }
    }
    forall q | q in handles ensures Cacheable(truth', q) {
      forall i | 0 <= i < |q.table.index| ensures truth'(BlockKey(q.id, i % U32)) == BlockOption(q.table, i) {
        assert Cacheable(truth, q);
      }
    }
  }

  lemma CacheSubset(truth: Truth, nextId: nat, handles: set<Run>, fewer: set<Run>)
    requires CacheMatches(truth, nextId, handles) && fewer <= handles
    ensures CacheMatches(truth, nextId, fewer)
  {
    hide Cacheable;
  }

  lemma HoldsBound(r: Run, t: Table)
    requires RunHolds(r, t)
    ensures |r.table.index| <= U32
  {
  }

  lemma EmptyFits()
    ensures Fits(map[])
  {
  }

  /** The buffer in key order is the listing the run file is made from. */
  lemma TakenEntries(entries: seq<Entry>, t: Table)
    requires Ascending(entries) && TableOf(entries) == t
    ensures FileOf(entries) == Image(t) && (set e | e in entries :: e.key) == t.Keys && entries == Listing(t)
    ensures Fits(t) ==> AllSmall(entries)
  {
    hide FileOf, TableOf, Ascending, AllSmall, Listing;
    AscendingUnique(entries, Listing(t));
    TableOfKeys(entries);
  }

  // ------------------------------------------------------------ the invariant

  /** What a build in progress may rely on. */
  lemma FreshBuild(c: Config, d: Disk, v: Session, h: History, who: Who)
    requires SessionInv(c, d, v, h) && BuildOf(v, who).Some? && BuildOf(v, who).value.stage == Reserved
    ensures var num := BuildOf(v, who).value.num;
            num !in d.runs && Present(d.runs, v.runs) && Present(d.runs, InputsOf(v.comp)) && num !in v.runs && Unread(v.readers, num)
  {
    hide HistoryInv, BaseInv, LockInv, ManifestInv, Contents, Compacted;
  }

  /** What the swap may rely on. */
  lemma SwapFacts(c: Config, d: Disk, v: Session, h: History)
    requires SessionInv(c, d, v, h) && v.comp.Output? && Built(v.comp.b)
    ensures Distinct(v.comp.inputs) && RunOf(d.runs, v.comp.b.num) == v.comp.b.table
    ensures |Without(v.runs, v.comp.inputs)| == |v.runs| - |v.comp.inputs|
  {
    hide HistoryInv, BaseInv, LockInv, ManifestInv, Contents, Compacted, Without;
    var newer := v.runs[..|v.runs| - |v.comp.inputs|];
    assert newer + v.comp.inputs == v.runs;
    WithoutSuffix(newer, v.comp.inputs);
  }

  /** A superseded run is in no list, nor an input of a compaction in progress. */
  lemma ObsoleteUnlisted(c: Config, d: Disk, v: Session, h: History, num: nat)
    requires SessionInv(c, d, v, h) && num in v.obsolete && (v.comp.Done? ==> v.comp.inputs == [])
    ensures num !in v.runs && num !in InputsOf(v.comp)
  {
    hide HistoryInv, BaseInv, LockInv, ManifestInv, Contents, Compacted, BuildInv;
    if v.comp.Inputs? || v.comp.Output? {
      var n := |v.runs| - |v.comp.inputs|;
      assert forall i :: 0 <= i < |v.comp.inputs| ==> v.comp.inputs[i] == v.runs[n + i];
    }
  }

  lemma RetiredUnlisted(c: Config, d: Disk, v: Session, h: History)
    requires SessionInv(c, d, v, h) && (v.comp.Done? ==> v.comp.inputs == [])
    ensures forall n :: n in v.obsolete ==> n !in v.runs && n !in InputsOf(v.comp)
  {
    hide SessionInv, InputsOf;
    forall n | n in v.obsolete ensures n !in v.runs && n !in InputsOf(v.comp) { ObsoleteUnlisted(c, d, v, h, n); }
  }

  lemma RunsPresent(c: Config, d: Disk, v: Session, h: History)
    requires SessionInv(c, d, v, h)
    ensures Present(d.runs, v.runs) && forall id :: id in v.readers ==> Present(d.runs, v.readers[id].runs)
    ensures forall n :: n in v.runs ==> n < v.nextSeq
  {
    hide BuildInv, ManifestInv, LockInv, CompInv, HistoryInv, BaseInv;
  }

  lemma FreeView(c: Config, d: Disk, v: Session, h: History)
    requires SessionInv(c, d, v, h) && v.writer.Free?
    ensures SessionView(d, v) == Fold(h.shown)
  {
    hide BuildInv, ManifestInv, LockInv, CompInv, View, Fold, Contents;
  }

  lemma IdleIsOpen(c: Config, d: Disk, v: Session, h: History)
    requires SessionInv(c, d, v, h) && v.writer.Free?
    ensures v.open && v.op.None? && h.base <= |h.shown|
  {
    hide BuildInv, ManifestInv, CompInv, HistoryInv, LogInv;
  }

  /** Every number a manifest may name is below the counter. */
  lemma ListNarrow(c: Config, d: Disk, v: Session, h: History, live: seq<nat>)
    requires SessionInv(c, d, v, h) && v.nextSeq < U64
    requires forall n :: n in live ==> n in v.runs || FlushNum(v.writer) == Some(n) || CompNum(v.comp) == Some(n)
    ensures Narrow(Manifest(v.nextSeq, live))
  {
    hide BuildInv, ManifestInv, LockInv, HistoryInv, BaseInv, CompInv;
    forall i | 0 <= i < |live| ensures live[i] < U64 {
      assert live[i] in live;
    }
  }

  lemma {:induction false} WithoutFrom(runs: seq<nat>, inputs: seq<nat>)
    ensures forall n :: n in Without(runs, inputs) ==> n in runs
  {
    if runs != [] { WithoutFrom(runs[1..], inputs); }
  }

  /** After a swap, the superseded runs left are those a read holds. */
  lemma RetiredHeld(before: set<nat>, inputs: seq<nat>, snaps: map<nat, Snap>, n: nat)
    requires forall m :: m in before ==> IsHeld(snaps, m)
    requires var all := before + (set m | m in inputs); n in all - Loose(all, snaps, inputs)
    ensures IsHeld(snaps, n)
  {
    hide IsHeld;
  }
}
