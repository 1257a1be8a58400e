/** Opening a directory: the manifest, the run files it names, the recovery scan,
    the log, and the checkpoint of what the log held. */
module Opening {
  import opened Bytes
  import opened Records
  import opened Codec
  import opened Wal
  import opened MemTables
  import opened Cache
  import opened SsTables
  import opened Reads
  import opened Protocol
  import opened Invariant
  import opened Recovery
  import opened Guarantees
  import opened Links
  import opened Engines
  import ManifestText

  // ------------------------------------------------------------------ manifest

  /** The numbers of a list of run names; any other name is of no run there is. */
  function Numbers(names: seq<string>): Result<seq<nat>> {
    if forall i :: 0 <= i < |names| ==> ManifestText.SeqOf(names[i]).Some? then
      Ok(seq(|names|, i requires 0 <= i < |names| => ManifestText.SeqOf(names[i]).value))
    else Err(Corruption)
  }

  /** What the manifest says; a fresh directory has none and no runs. */
  function LoadedManifest(text: Option<string>): Result<Manifest> {
    if text.None? then Ok(Manifest(0, []))
    else
      var file :- ManifestText.Load(text.value);
      var live :- Numbers(file.runs);
      Ok(Manifest(file.nextSeq, live))
  }

  /** What a manifest text says, down to the numbers of its runs. */
  ghost predicate TextSays(text: string, m: Manifest) {
    exists file :: ManifestText.Says(text, file) && NumbersAre(file, m)
  }

  ghost predicate NumbersAre(file: ManifestText.ManifestFile, m: Manifest) {
    && file.nextSeq == m.nextSeq && |file.runs| == |m.live|
    && forall i :: 0 <= i < |m.live| ==> ManifestText.NamesRun(file.runs[i], m.live[i])
  }

  /** Exactly the texts that say something are accepted, and as what they say. */
  lemma LoadedExactly(text: string, m: Manifest)
    ensures LoadedManifest(Some(text)) == Ok(m) <==> TextSays(text, m)
  {
    hide ManifestText.Says, ManifestText.NamesRun, ManifestText.Load, ManifestText.SeqOf;
    if LoadedManifest(Some(text)) == Ok(m) {
      var file := ManifestText.Load(text).value;
      ManifestText.LoadsExactly(text, file);
      NumbersExactly(file, m);
    }
    if TextSays(text, m) {
      var file :| ManifestText.Says(text, file) && NumbersAre(file, m);
      ManifestText.LoadsExactly(text, file);
      NumbersExactly(file, m);
    }
  }

  lemma NumbersExactly(file: ManifestText.ManifestFile, m: Manifest)
    ensures file.nextSeq == m.nextSeq && Numbers(file.runs) == Ok(m.live) <==> NumbersAre(file, m)
  {
    hide ManifestText.NamesRun, ManifestText.SeqOf;
    forall i, n: nat | 0 <= i < |file.runs|
      ensures ManifestText.SeqOf(file.runs[i]) == Some(n) <==> ManifestText.NamesRun(file.runs[i], n)
    {
      ManifestText.SeqOfExactly(file.runs[i], n);
    }
    if NumbersAre(file, m) {
      assert forall i :: 0 <= i < |m.live| ==> ManifestText.SeqOf(file.runs[i]) == Some(m.live[i]);
      assert Numbers(file.runs).value == m.live;
    }
  }

  /** The engine's own manifests are read back as they were. */
  lemma OwnManifest(m: Manifest)
    requires Narrow(m)
    ensures LoadedManifest(Some(ManifestBody(m))) == Ok(m)
  {
    hide ManifestText.Load, ManifestText.SeqOf, ManifestText.Text, ManifestText.RunFilename;
    ManifestText.NumbersReadBack(m.nextSeq, m.live, 0);
    assert Numbers(ManifestText.Names(m.live)).value == m.live;
  }

  lemma OwnManifestIn(dir: Dir, d: Disk)
    requires DirMatches(dir, d)
    ensures var r := LoadedManifest(dir.manifest);
            r.Ok? && r.value.live == LiveRuns(d) && DoLoad(d) == Scanning(r.value.live, r.value.nextSeq, DirEntries(d))
  {
    hide LoadedManifest, FilesMatch, ManifestBody;
    if d.manifest.Some? {
      OwnManifest(d.manifest.value);
    } else {
      NoManifest();
    }
  }

  lemma NoManifest()
    ensures LoadedManifest(None) == Ok(Manifest(0, []))
  {
  }

  /** Parse the manifest, then its names one by one. */
  method LoadManifest(text: Option<string>) returns (r: Result<Manifest>)
    ensures r == LoadedManifest(text)
    ensures text.None? ==> r == Ok(Manifest(0, []))
    ensures text.Some? ==> (r.Ok? <==> exists m :: TextSays(text.value, m)) && (r.Ok? ==> TextSays(text.value, r.value))
  {
    hide ManifestText.Load, ManifestText.SeqOf, TextSays;
    if text.Some? {
      forall m ensures TextSays(text.value, m) <==> LoadedManifest(text) == Ok(m) { LoadedExactly(text.value, m); }
    }
    if text.None? {
      return Ok(Manifest(0, []));
    }
    var file := ManifestText.Load(text.value);
    if file.Err? {
      return Err(file.error);
    }
    var names, live := file.value.runs, [];
    for i := 0 to |names|
      invariant |live| == i && forall j :: 0 <= j < i ==> ManifestText.SeqOf(names[j]) == Some(live[j])
    {
      var num := ManifestText.SeqOf(names[i]);
      if num.None? {
        return Err(Corruption);
      }
      live := live + [num.value];
    }
    assert Numbers(names).Ok? && Numbers(names).value == live;
    r := Ok(Manifest(file.value.nextSeq, live));
  }

  // ---------------------------------------------------------------------- runs

  /** Every named run has a file that parses. */
  ghost predicate RunsReadable(files: map<nat, seq<byte>>, names: seq<nat>) {
    forall n :: n in names ==> n in files && Opened(files[n]).Ok?
  }

  /** The handles are on the named runs, in order, each with its filter if it has one. */
  ghost predicate HandlesOn(dir: Dir, bloom: bool, names: seq<nat>, runs: seq<Run>) {
    |runs| == |names| && forall i :: 0 <= i < |runs| ==> HandleOn(dir, bloom, names[i], runs[i])
  }

  ghost predicate HandleOn(dir: Dir, bloom: bool, num: nat, run: Run) {
    && num in dir.runs && run.num == num && Opened(dir.runs[num]) == Ok(run.table)
    && run.filter == if bloom && num in dir.sidecars then Some(dir.sidecars[num]) else None
  }

  /** Every file of the directory is the image of a table, and no filter misses a
      key of its run. */
  ghost predicate Stores(dir: Dir, tables: map<nat, Table>) {
    FilesMatch(dir.runs, tables) && SidecarsInv(tables, dir.sidecars)
  }

  /** Open the named runs. A name without a file, and a file that does not parse, is
      reported. */
  method OpenRuns(names: seq<nat>, dir: Dir, bloom: bool, ghost tables: map<nat, Table>)
    returns (r: Result<seq<Run>>, ghost truth: Truth)
    ensures r.Ok? <==> RunsReadable(dir.runs, names)
    ensures r.Ok? ==> HandlesOn(dir, bloom, names, r.value)
    ensures Stores(dir, tables) && Present(tables, names) ==>
              r.Ok? && RunsMatch(tables, names, r.value) && CacheMatches(truth, |r.value|, OpenHandles(r.value, NoJob, map[]))
  {
    hide Opened, Fits, Image, RunHolds, CacheMatches, BlockOption, OpenHandles;
    var runs: seq<Run> := [];
    truth := k => None;
    NothingCached(truth);
    ghost var sound := Stores(dir, tables) && Present(tables, names);
    for i := 0 to |names|
      invariant RunsReadable(dir.runs, names[..i]) && HandlesOn(dir, bloom, names[..i], runs)
      invariant sound ==> RunsMatch(tables, names[..i], runs) && CacheMatches(truth, i, OpenHandles(runs, NoJob, map[]))
    {
      var num := names[i];
      if num !in dir.runs {
        return Err(Corruption), truth;
      }
      var filter := if bloom && num in dir.sidecars then Some(dir.sidecars[num]) else None;
      ghost var t := RunOf(tables, num);
      var run := OpenRun(num, i, dir.runs[num], filter, t);
      if run.Err? {
        return Err(run.error), truth;
      }
      if sound {
        HoldsBound(run.value, t);
        OpenedIsCacheable(truth, i, OpenHandles(runs, NoJob, map[]), run.value);
        OneMore(runs, run.value);
      }
      truth := WithRun(truth, i, run.value.table);
      runs := runs + [run.value];
    }
    assert names[..|names|] == names;
    r := Ok(runs);
  }

  lemma ReadableIsPresent(dir: Dir, tables: map<nat, Table>, names: seq<nat>)
    requires Stores(dir, tables) && RunsReadable(dir.runs, names)
    ensures Present(tables, names)
  {
    hide Fits, Image, Opened;
    assert dir.runs.Keys == tables.Keys;
  }

  lemma OneMore(runs: seq<Run>, run: Run)
    ensures OpenHandles(runs + [run], NoJob, map[]) == OpenHandles(runs, NoJob, map[]) + {run}
  {
  }

  lemma NothingCached(truth: Truth)
    requires forall k :: truth(k) == None
    ensures CacheMatches(truth, 0, OpenHandles([], NoJob, map[]))
  {
  }

  // ------------------------------------------------------------ recovery scan

  /** What a listing of the directory shows besides the log and the manifest. */
  function Entries(dir: Dir): set<DirEntry> {
    (set x | x in dir.runs :: RunEntry(x)) +
    (set x | x in dir.sidecars :: SidecarEntry(x)) +
    (set x | x in dir.runTmps :: RunTmpEntry(x)) +
    (set x | x in dir.sidecarTmps :: SidecarTmpEntry(x)) +
    (if dir.manifestTmp.Some? then {ManifestTmpEntry} else {})
  }

  lemma EntriesMatch(dir: Dir, d: Disk)
    requires DirMatches(dir, d)
    ensures Entries(dir) == DirEntries(d)
  {
    assert dir.runs.Keys == d.runs.Keys;
  }

  lemma RunsListed(dir: Dir)
    ensures forall x :: x in dir.runs <==> RunEntry(x) in Entries(dir)
  {
  }

  /** What the scan leaves of a directory. */
  function Kept(dir: Dir, live: seq<nat>): Dir {
    dir.(runs := map x | x in dir.runs && x in live :: dir.runs[x],
         sidecars := map x | x in dir.sidecars && x in live :: dir.sidecars[x],
         runTmps := map[], sidecarTmps := map[], manifestTmp := None)
  }

  /** What it has left with `todo` still to visit. */
  predicate RunsLeft(dir: Dir, after: Dir, live: seq<nat>, todo: set<DirEntry>) {
    && after.runs == (map x | x in dir.runs && (x in live || RunEntry(x) in todo) :: dir.runs[x])
    && after.sidecars == (map x | x in dir.sidecars && (x in live || SidecarEntry(x) in todo) :: dir.sidecars[x])
  }

  predicate TmpsLeft(dir: Dir, after: Dir, todo: set<DirEntry>) {
    && after.runTmps == (map x | x in dir.runTmps && RunTmpEntry(x) in todo :: dir.runTmps[x])
    && after.sidecarTmps == (map x | x in dir.sidecarTmps && SidecarTmpEntry(x) in todo :: dir.sidecarTmps[x])
    && after.manifestTmp == if ManifestTmpEntry in todo then dir.manifestTmp else None
  }

  predicate DirProgress(dir: Dir, after: Dir, live: seq<nat>, todo: set<DirEntry>) {
    after.manifest == dir.manifest && RunsLeft(dir, after, live, todo) && TmpsLeft(dir, after, todo)
  }

  lemma DirBegins(dir: Dir, live: seq<nat>)
    ensures DirProgress(dir, dir, live, Entries(dir))
  {
  }

  lemma DirEnds(dir: Dir, after: Dir, live: seq<nat>)
    requires DirProgress(dir, after, live, {})
    ensures after == Kept(dir, live)
  {
  }

  /** At every point of the scan, bytes and machine agree. */
  lemma ProgressMatches(dir: Dir, d: Disk, after: Dir, s: State)
    requires DirMatches(dir, d) && ScanProgress(d, s) && DirProgress(dir, after, s.phase.live, s.phase.todo)
    ensures DirMatches(after, s.disk)
  {
    hide Fits, Image, ManifestMatches;
    assert after.runs.Keys == s.disk.runs.Keys;
    assert after.runTmps.Keys == s.disk.temps.runs.Keys;
  }

  lemma RunsVisited(dir: Dir, before: Dir, after: Dir, live: seq<nat>, e: DirEntry, todo: set<DirEntry>)
    requires RunsLeft(dir, before, live, todo)
    requires after.runs == if e.RunEntry? && e.run !in live then before.runs - {e.run} else before.runs
    requires after.sidecars == if e.SidecarEntry? && e.run !in live then before.sidecars - {e.run} else before.sidecars
    ensures RunsLeft(dir, after, live, todo - {e})
  {
  }

  lemma TmpsVisited(dir: Dir, before: Dir, after: Dir, e: DirEntry, todo: set<DirEntry>)
    requires TmpsLeft(dir, before, todo)
    requires after.runTmps == if e.RunTmpEntry? then before.runTmps - {e.run} else before.runTmps
    requires after.sidecarTmps == if e.SidecarTmpEntry? then before.sidecarTmps - {e.run} else before.sidecarTmps
    requires after.manifestTmp == if e.ManifestTmpEntry? then None else before.manifestTmp
    ensures TmpsLeft(dir, after, todo - {e})
  {
  }

  /** Delete the entry if it is a temporary or an orphan; step past its number. */
  method ScanOne(dir: Dir, before: Dir, live: seq<nat>, nextSeq: nat, e: DirEntry, ghost todo: set<DirEntry>) returns (after: Dir, next: nat)
    requires DirProgress(dir, before, live, todo) && e in todo
    ensures DirProgress(dir, after, live, todo - {e})
    ensures next == if e.RunEntry? && e.run + 1 > nextSeq then e.run + 1 else nextSeq
  {
    hide RunsLeft, TmpsLeft;
    after, next := before, nextSeq;
    match e {
      case RunTmpEntry(x) => after := before.(runTmps := before.runTmps - {x});
      case SidecarTmpEntry(x) => after := before.(sidecarTmps := before.sidecarTmps - {x});
      case ManifestTmpEntry => after := before.(manifestTmp := None);
      case SidecarEntry(x) =>
        if x !in live {
          after := before.(sidecars := before.sidecars - {x});
        }
      case RunEntry(x) =>
        if x + 1 > next {
          next := x + 1;
        }
        if x !in live {
          after := before.(runs := before.runs - {x});
        }
    }
    RunsVisited(dir, before, after, live, e, todo);
    TmpsVisited(dir, before, after, e, todo);
  }

  /** The counter: the manifest's, or one past the highest run file. */
  predicate PastAll(dir: Dir, m: Manifest, next: nat) {
    m.nextSeq <= next && (forall x :: x in dir.runs ==> x < next) && (next == m.nextSeq || next - 1 in dir.runs)
  }

  /** The machine has come to rest with this directory, whose manifest is `m`. */
  ghost predicate AtRest(cfg: Config, dir: Dir, m: Manifest, actions: seq<Action>, states: seq<State>) {
    && IsRun(cfg, actions, states) && Last(states).phase.Down? && Enabled(cfg, Last(states), Load)
    && DirMatches(dir, Last(states).disk) && LoadedManifest(dir.manifest) == Ok(m)
  }

  /** It has since loaded the manifest and scanned all but `todo` of the directory. */
  ghost predicate ScannedBut(cfg: Config, live: seq<nat>, states: seq<State>, after: Dir, next: nat, todo: set<DirEntry>,
                             actions': seq<Action>, states': seq<State>)
  {
    && states != [] && IsRun(cfg, actions', states') && states <= states' && Last(states').h == Last(states).h
    && Last(states').phase == Scanning(live, next, todo) && DirMatches(after, Last(states').disk)
    && ScanProgress(Last(states).disk, Last(states'))
  }

  lemma StartScan(cfg: Config, dir: Dir, m: Manifest, actions: seq<Action>, states: seq<State>)
    returns (actions': seq<Action>, states': seq<State>)
    requires AtRest(cfg, dir, m, actions, states)
    ensures ScannedBut(cfg, m.live, states, dir, m.nextSeq, Entries(dir), actions', states')
  {
    hide DirMatches, EnabledIn, DoIn, DoLoad, Entries, ScanProgress, LiveRuns, LoadedManifest, DirEntries;
    OwnManifestIn(dir, Last(states).disk);
    EntriesMatch(dir, Last(states).disk);
    Extend(cfg, actions, states, Load);
    ScanBegins(Last(states).disk, Last(states).h);
    actions', states' := actions + [Load], states + [Do(cfg, Last(states), Load)];
  }

  lemma ScanOn(cfg: Config, dir: Dir, m: Manifest, actions: seq<Action>, states: seq<State>, before: Dir, nextSeq: nat, todo: set<DirEntry>,
               actions1: seq<Action>, states1: seq<State>, e: DirEntry, after: Dir, next: nat)
    returns (actions': seq<Action>, states': seq<State>)
    requires AtRest(cfg, dir, m, actions, states) && e in todo
    requires ScannedBut(cfg, m.live, states, before, nextSeq, todo, actions1, states1) && DirProgress(dir, after, m.live, todo - {e})
    requires next == if e.RunEntry? && e.run + 1 > nextSeq then e.run + 1 else nextSeq
    ensures ScannedBut(cfg, m.live, states, after, next, todo - {e}, actions', states')
  {
    hide DirMatches, EnabledIn, DoIn, DirProgress, ScanProgress, LoadedManifest;
    var s := Last(states1);
    ScanProgressStep(Last(states).disk, s, e);
    ProgressMatches(dir, Last(states).disk, after, DoScan(s, e));
    Extend(cfg, actions1, states1, ScanEntry(e));
    actions', states' := actions1 + [ScanEntry(e)], states1 + [DoScan(s, e)];
  }

  /** Scan any directory: exactly the orphans of the manifest go. The machine, if it
      is at rest with it, takes a step per entry. */
  method Reclaim(cfg: Config, dir: Dir, m: Manifest, ghost actions: seq<Action>, ghost states: seq<State>)
    returns (after: Dir, next: nat, ghost actions': seq<Action>, ghost states': seq<State>)
    ensures after == Kept(dir, m.live) && PastAll(dir, m, next)
    ensures forall x :: x in after.runs <==> x in dir.runs && x in m.live
    ensures forall x :: x in after.sidecars <==> x in dir.sidecars && x in m.live
    ensures (forall x :: x in after.runs ==> after.runs[x] == dir.runs[x]) && forall x :: x in after.sidecars ==> after.sidecars[x] == dir.sidecars[x]
    ensures after.runTmps == map[] && after.sidecarTmps == map[] && after.manifestTmp.None? && after.manifest == dir.manifest
    ensures m.nextSeq <= next && (forall x :: x in dir.runs ==> x < next) && (next == m.nextSeq || next - 1 in dir.runs)
    ensures AtRest(cfg, dir, m, actions, states) ==> ScannedBut(cfg, m.live, states, after, next, {}, actions', states')
  {
    hide AtRest, ScannedBut, DirProgress, Entries, Kept;
    ghost var atRest := AtRest(cfg, dir, m, actions, states);
    next, after, actions', states' := m.nextSeq, dir, actions, states;
    if atRest {
      actions', states' := StartScan(cfg, dir, m, actions, states);
    }
    var todo := Entries(dir);
    DirBegins(dir, m.live);
    RunsListed(dir);
    while todo != {}
      invariant DirProgress(dir, after, m.live, todo) && todo <= Entries(dir)
      invariant m.nextSeq <= next && (next == m.nextSeq || next - 1 in dir.runs)
      invariant forall x :: x in dir.runs ==> x < next || RunEntry(x) in todo
      invariant atRest ==> ScannedBut(cfg, m.live, states, after, next, todo, actions', states')
      decreases |todo|
    {
      var e :| e in todo;
      ghost var before, nextSeq := after, next;
      after, next := ScanOne(dir, after, m.live, next, e, todo);
      if atRest {
        actions', states' := ScanOn(cfg, dir, m, actions, states, before, nextSeq, todo, actions', states', e, after, next);
      }
      todo := todo - {e};
    }
    DirEnds(dir, after, m.live);
    KeptIs(dir, m.live);
  }

  lemma KeptIs(dir: Dir, live: seq<nat>)
    ensures var k := Kept(dir, live);
            && (forall x :: x in k.runs <==> x in dir.runs && x in live) && (forall x :: x in k.sidecars <==> x in dir.sidecars && x in live)
            && (forall x :: x in k.runs ==> k.runs[x] == dir.runs[x]) && (forall x :: x in k.sidecars ==> k.sidecars[x] == dir.sidecars[x])
            && k.runTmps == map[] && k.sidecarTmps == map[] && k.manifestTmp.None? && k.manifest == dir.manifest
  {
  }

  // ----------------------------------------------------------------- the engine

  ghost predicate LogReadable(durable: bool, wal: Option<seq<seq<byte>>>) {
    durable && wal.Some? ==> AllDecode(wal.value)
  }

  /** What the log, if it is in use, replays to. */
  ghost function Replayed(durable: bool, wal: Option<seq<seq<byte>>>): Table
    requires LogReadable(durable, wal)
  {
    if durable && wal.Some? then Replay(DecodeRecords(wal.value)) else map[]
  }

  /** Open the log, if there is one, and replay it into a fresh buffer. A record
      that does not decode is reported. */
  method RecoverLog(durable: bool, wal: Option<seq<seq<byte>>>, ghost batches: Option<seq<Batch>>)
    returns (r: Result<()>, log: Durability, mem: MemTable)
    ensures fresh(log) && fresh(mem) && mem.Valid()
    ensures r.Ok? <==> LogReadable(durable, wal)
    ensures r.Ok? ==> mem.entries == Replayed(durable, wal) && log.wal == Some(if wal.Some? then wal.value else [])
    ensures r.Ok? && LogMatches(durable, wal, batches) ==>
              && mem.entries == LogTable(batches)
              && LogMatches(durable, log.wal, if !durable then None else Some(if batches.Some? then batches.value else []))
  {
    hide Decoded;
    log := new Durability(wal);
    mem := new MemTable();
    r := Ok(());
    if durable {
      r := log.Replay(mem);
    }
  }

  /** The manifest parses, and so does every run it names. */
  ghost predicate FilesReadable(dir: Dir) {
    LoadedManifest(dir.manifest).Ok? && RunsReadable(dir.runs, LoadedManifest(dir.manifest).value.live)
  }

  /** The directory can be opened: its files parse, and so does every record of the
      log. */
  ghost predicate Readable(cfg: Config, dir: Dir, wal: Option<seq<seq<byte>>>) {
    FilesReadable(dir) && LogReadable(cfg.durable, wal)
  }

  /** The directory and log an engine left behind at the end of a run, with room
      for the numbers the open itself takes. */
  ghost predicate LeftBehind(cfg: Config, dir: Dir, wal: Option<seq<seq<byte>>>, actions: seq<Action>, states: seq<State>) {
    && IsRun(cfg, actions, states) && Last(states).phase.Down?
    && DirMatches(dir, Last(states).disk) && LogMatches(cfg.durable, wal, Last(states).disk.log)
    && Fits(LogTable(Last(states).disk.log)) && Roomy(Last(states).disk)
  }

  lemma LeftSome(cfg: Config, dir: Dir, wal: Option<seq<seq<byte>>>, actions: seq<Action>, states: seq<State>)
    requires LeftBehind(cfg, dir, wal, actions, states)
    ensures states != []
  {
    hide Enabled, Do, DirMatches, LogMatches, Fits, Roomy;
  }

  predicate Roomy(d: Disk) {
    (d.manifest.Some? ==> d.manifest.value.nextSeq + 1 < U64) && forall x :: x in d.runs ==> x + 2 < U64
  }

  /** A write with a key or value over the readers' cap is acknowledged and locks
      its database: as long as the record is in the log, no open succeeds. */
  lemma OversizeWriteLocksOut(cfg: Config, dir: Dir, wal: Option<seq<seq<byte>>>, ops: Batch)
    requires cfg.durable && wal.Some? && RecordBytes(ops) in wal.value
    requires |ops| < U32 && AllWide(ops) && !AllSmall(ops)
    ensures !Readable(cfg, dir, wal)
  {
    hide Decoded, RecordBytes, LoadedManifest, RunsReadable;
    OversizeNeverDecodes(ops);
  }

  /** What every directory between two sessions satisfies. */
  lemma Recoverable(c: Config, actions: seq<Action>, states: seq<State>)
    requires c.trigger >= 2 && IsRun(c, actions, states) && Last(states).phase.Down?
    ensures var d := Last(states).disk;
            Enabled(c, Last(states), Load) && Present(d.runs, LiveRuns(d)) && SidecarsInv(d.runs, d.sidecars)
  {
    hide EnabledIn, SessionInv;
    RunInvariant(c, actions, states, |states| - 1);
  }

  /** An engine can always open what an engine left behind. */
  lemma OwnDirectoryIsReadable(cfg: Config, dir: Dir, wal: Option<seq<seq<byte>>>, actions: seq<Action>, states: seq<State>)
    requires cfg.trigger >= 2 && LeftBehind(cfg, dir, wal, actions, states)
    ensures Readable(cfg, dir, wal)
  {
    hide LoadedManifest, Opened, Enabled, Do, RunLayout.FileOf;
    var d := Last(states).disk;
    Recoverable(cfg, actions, states);
    OwnManifestIn(dir, d);
    forall n | n in LiveRuns(d) ensures n in dir.runs && Opened(dir.runs[n]).Ok? {
      assert n in d.runs;
      WrittenRunOpens(Listing(d.runs[n]));
    }
  }

  /** Reclaiming orphans disturbs no open run. */
  lemma LiveKept(d: Disk, runs: seq<Run>)
    requires RunsMatch(d.runs, LiveRuns(d), runs)
    ensures RunsMatch(Reclaimed(d).runs, LiveRuns(d), runs) && Reclaimed(d).log == d.log
  {
    hide RunsMatch;
    MatchFrame(d.runs, Reclaimed(d).runs, LiveRuns(d), runs);
  }

  /** What an open finds: the next number, the live runs, the log and its replay. */
  datatype Stored = Stored(next: nat, handles: seq<Run>, log: Durability, mem: MemTable)

  /** The machine has scanned the directory and is about to open the log. */
  ghost predicate Ready(cfg: Config, states: seq<State>, after: Dir, st: Stored, truth: Truth, actions': seq<Action>, states': seq<State>)
    reads st.log, st.mem
  {
    && states != [] && IsRun(cfg, actions', states') && states <= states'
    && Last(states').h == Last(states).h && ReadyParts(cfg, after, st, Last(states'))
    && CacheMatches(truth, |st.handles|, OpenHandles(st.handles, NoJob, map[]))
  }

  ghost predicate ReadyParts(cfg: Config, after: Dir, st: Stored, s: State)
    reads st.log, st.mem
  {
    && s.phase.Scanning? && s.phase.todo == {} && s.phase.nextSeq == st.next && st.next + 1 < U64
    && DirMatches(after, s.disk) && RunsMatch(s.disk.runs, s.phase.live, st.handles) && Fits(LogTable(s.disk.log))
    && st.mem.entries == LogTable(s.disk.log) && st.log.wal.Some? && LogMatches(cfg.durable, st.log.wal, DoOpenLog(cfg, s).disk.log)
    && (!cfg.durable ==> s.disk.log.None?)
  }

  lemma ComesToRest(cfg: Config, dir: Dir, wal: Option<seq<seq<byte>>>, actions: seq<Action>, states: seq<State>, m: Manifest)
    requires cfg.trigger >= 2 && LeftBehind(cfg, dir, wal, actions, states) && LoadedManifest(dir.manifest) == Ok(m)
    ensures AtRest(cfg, dir, m, actions, states) && states != []
    ensures var d := Last(states).disk;
            && Stores(dir, d.runs) && Present(d.runs, m.live)
            && LogMatches(cfg.durable, wal, d.log) && (!cfg.durable ==> d.log.None?) && Fits(LogTable(d.log))
  {
    hide LoadedManifest, FilesMatch, SidecarsInv, Present, Enabled, Do, ManifestMatches, AllDecode, LogTable, Fits;
    Recoverable(cfg, actions, states);
    OwnManifestIn(dir, Last(states).disk);
  }

  /** After the scan the live runs are still there, and there is room for one more. */
  lemma AfterScan(cfg: Config, dir: Dir, wal: Option<seq<seq<byte>>>, m: Manifest, actions: seq<Action>, states: seq<State>, after: Dir, next: nat,
                  actions': seq<Action>, states': seq<State>, handles: seq<Run>)
    requires AtRest(cfg, dir, m, actions, states) && LeftBehind(cfg, dir, wal, actions, states) && PastAll(dir, m, next)
    requires ScannedBut(cfg, m.live, states, after, next, {}, actions', states') && RunsMatch(Last(states).disk.runs, m.live, handles)
    ensures IsRun(cfg, actions', states') && states <= states' && Last(states').h == Last(states).h
    ensures var s := Last(states');
            && s.phase == Scanning(m.live, next, {}) && next + 1 < U64 && s.disk.log == Last(states).disk.log
            && DirMatches(after, s.disk) && RunsMatch(s.disk.runs, m.live, handles)
  {
    hide FilesMatch, RunsMatch, Reclaimed, Enabled, Do, LoadedManifest, ManifestMatches, LogMatches, Roomy, Fits, ScanProgress;
    var d := Last(states).disk;
    OwnManifestIn(dir, d);
    ScanEnds(d, Last(states'));
    LiveKept(d, handles);
    RoomForOne(dir, d, m, next);
  }

  lemma RoomForOne(dir: Dir, d: Disk, m: Manifest, next: nat)
    requires DirMatches(dir, d) && LoadedManifest(dir.manifest) == Ok(m) && Roomy(d) && (next == m.nextSeq || next - 1 in dir.runs)
    ensures next + 1 < U64
  {
    hide LoadedManifest, Fits, Image, ManifestBody;
    if d.manifest.Some? { OwnManifest(d.manifest.value); } else { NoManifest(); }
    assert dir.runs.Keys == d.runs.Keys;
  }

  /** Read what is stored, in any directory: the manifest, the runs it names, then
      the scan, which deletes whatever is left over, and only then the log. So an
      open that fails on the log has reclaimed the directory, and one that fails
      earlier has not touched it. */
  method OpenStored(cfg: Config, bloom: bool, dir: Dir, wal: Option<seq<seq<byte>>>, ghost tables: map<nat, Table>,
                    ghost actions: seq<Action>, ghost states: seq<State>)
    returns (r: Result<Stored>, after: Dir, ghost truth: Truth, ghost actions': seq<Action>, ghost states': seq<State>)
    ensures r.Ok? <==> Readable(cfg, dir, wal)
    ensures after == if FilesReadable(dir) then Kept(dir, LoadedManifest(dir.manifest).value.live) else dir
    ensures r.Ok? ==>
      var m, st := LoadedManifest(dir.manifest).value, r.value;
      && (if dir.manifest.Some? then TextSays(dir.manifest.value, m) else m == Manifest(0, []))
      && HandlesOn(dir, bloom, m.live, st.handles) && PastAll(dir, m, st.next)
      && fresh(st.log) && fresh(st.mem) && st.mem.Valid() && st.mem.entries == Replayed(cfg.durable, wal)
      && st.log.wal == Some(if wal.Some? then wal.value else [])
    ensures r.Ok? && Stores(dir, tables) ==>
      var st := r.value;
      && RunsHold(st.handles, Contents(tables, LoadedManifest(dir.manifest).value.live))
      && CacheMatches(truth, |st.handles|, OpenHandles(st.handles, NoJob, map[]))
    ensures cfg.trigger >= 2 && r.Ok? && states != [] && LeftBehind(cfg, dir, wal, actions, states) && tables == Last(states).disk.runs ==>
              Ready(cfg, states, after, r.value, truth, actions', states')
  {
    hide LoadedManifest, TextSays, RunsReadable, LeftBehind, LogReadable, Kept, PastAll, HandlesOn, AtRest, ScannedBut, Replayed, Stores, Present, RunsHold, Contents,
      RunsMatch, CacheMatches, OpenHandles, LogMatches, LogTable, IsRun, DirMatches, Fits;
    truth, actions', states', after := k => None, actions, states, dir;
    var m := LoadManifest(dir.manifest);
    if m.Err? {
      return Err(m.error), dir, truth, actions, states;
    }
    var handles;
    handles, truth := OpenRuns(m.value.live, dir, bloom, tables);
    if handles.Err? {
      return Err(handles.error), dir, truth, actions, states;
    }
    var next;
    after, next, actions', states' := Reclaim(cfg, dir, m.value, actions, states);
    var recovered, log, mem := RecoverLog(cfg.durable, wal, if states != [] then Last(states).disk.log else None);
    if recovered.Err? {
      return Err(recovered.error), after, truth, actions', states';
    }
    r := Ok(Stored(next, handles.value, log, mem));
    if Stores(dir, tables) {
      ReadableIsPresent(dir, tables, m.value.live);
      RunsMatchHold(tables, m.value.live, handles.value);
    }
    if cfg.trigger >= 2 && LeftBehind(cfg, dir, wal, actions, states) && states != [] && tables == Last(states).disk.runs {
      ComesToRest(cfg, dir, wal, actions, states, m.value);
      AfterScan(cfg, dir, wal, m.value, actions, states, after, next, actions', states', handles.value);
    }
  }

  /** Assemble an engine from what is stored; `t` is what the log held. */
  method StartEngine(cfg: Config, bloom: bool, noise: set<Key> -> set<Key>, mem: MemTable, log: Durability, cache: BlockCache, runs: seq<Run>,
                     dir: Dir, nextSeq: nat, ghost t: Table, ghost truth: Truth, ghost actions: seq<Action>, ghost states: seq<State>)
    returns (e: Engine)
    requires cfg.trigger >= 2 && IsRun(cfg, actions, states)
    requires var s := Last(states);
             && s.phase.Scanning? && s.phase.todo == {} && t == LogTable(s.disk.log)
             && nextSeq == s.phase.nextSeq + (if t == map[] then 0 else 1)
             && DirMatches(dir, s.disk) && RunsMatch(s.disk.runs, s.phase.live, runs)
             && LogMatches(cfg.durable, log.wal, DoOpenLog(cfg, s).disk.log)
    requires mem.Valid() && mem.entries == map[]
    requires cache.Valid() && cache.Coherent(truth) && CacheMatches(truth, |runs|, OpenHandles(runs, NoJob, map[]))
    ensures fresh(e) && e.cfg == cfg && e.mem == mem && e.log == log && e.cache == cache && e.job.NoJob? && e.snaps == map[] && e.retired == {}
    ensures e.Linked() && e.Caching() && states <= e.states && e.Now() == DoOpenLog(cfg, Last(states)) && e.nextSeq == nextSeq
  {
    hide FilesMatch, LogMatches, RunsMatch, CacheMatches, BlockCache.Valid, BlockCache.Coherent, EnabledIn, DoIn, ManifestMatches;
    ghost var s := Last(states);
    Extend(cfg, actions, states, OpenLog);
    e := new Engine(cfg, bloom, noise, mem, log, cache, runs, dir, nextSeq, |runs|, truth,
                    actions + [OpenLog], states + [DoOpenLog(cfg, s)]);
  }

  /** Start the engine and checkpoint what the log held. */
  method Recover(cfg: Config, bloom: bool, noise: set<Key> -> set<Key>, cache: BlockCache, dir: Dir, st: Stored,
                 ghost truth: Truth, ghost actions: seq<Action>, ghost states: seq<State>)
    returns (e: Engine)
    requires cfg.trigger >= 2 && IsRun(cfg, actions, states) && ReadyParts(cfg, dir, st, Last(states)) && st.mem.Valid()
    requires CacheMatches(truth, |st.handles|, OpenHandles(st.handles, NoJob, map[])) && cache.Valid() && cache.Coherent(truth)
    requires st.mem !in cache.Footprint() && st.log !in cache.Footprint()
    modifies st.mem, st.log
    ensures fresh(e) && e.mem == st.mem && e.log == st.log && e.cache == cache
    ensures e.Valid() && e.cfg == cfg && e.mem.entries == map[] && e.job.NoJob? && e.snaps == map[] && states <= e.states
    ensures e.Now().h.shown == Last(states).h.shown && LogTable(e.DiskNow().log) == map[]
  {
    hide DirMatches, LogMatches, Fits, RunsMatch, CacheMatches, BlockCache.Valid, BlockCache.Coherent, OpenHandles,
      Engine.Linked, Engine.Tracked, Engine.Caching, Records.View, Fold, Ascending, TableOf, Contents, IsRun;
    EmptyFits();
    var mem, log, next := st.mem, st.log, st.next;
    var entries := mem.Iter();
    var taken := mem.Take();
    if taken == map[] {
      e := StartEngine(cfg, bloom, noise, mem, log, cache, st.handles, dir, next, taken, truth, actions, states);
    } else {
      e := StartEngine(cfg, bloom, noise, mem, log, cache, st.handles, dir, next + 1, taken, truth, actions, states);
      e.FlushTaken(entries, next, taken);
    }
  }

  /** Open a directory. What cannot be read is reported; the directory an engine
      left behind, at any point of any run, gives an engine that shows exactly the
      history that survived, with a log that replays to nothing. */
  method OpenWith(cfg: Config, bloom: bool, noise: set<Key> -> set<Key>, cacheBytes: nat, dir: Dir, wal: Option<seq<seq<byte>>>,
                  ghost actions: seq<Action>, ghost states: seq<State>) returns (r: Result<Engine>, after: Dir)
    requires cfg.trigger >= 2 && (Readable(cfg, dir, wal) ==> LeftBehind(cfg, dir, wal, actions, states))
    ensures r.Ok? <==> Readable(cfg, dir, wal)
    ensures r.Err? ==> after == if FilesReadable(dir) then Kept(dir, LoadedManifest(dir.manifest).value.live) else dir
    ensures r.Ok? ==>
      var e := r.value;
      && fresh(e) && fresh(e.mem) && fresh(e.log) && fresh(e.cache) && fresh(e.cache.Footprint())
      && e.Valid() && e.cfg == cfg && e.mem.entries == map[] && e.job.NoJob? && e.snaps == map[] && states <= e.states && after == e.dir
      && e.View() == Fold(Last(states).h.shown) && e.Now().h.shown == Last(states).h.shown && LogTable(e.DiskNow().log) == map[]
  {
    hide LoadedManifest, TextSays, FilesReadable, LeftBehind, LogReadable, Kept, HandlesOn, PastAll, Replayed, ReadyParts, Engine.Linked, Engine.Caching, Fold,
      CacheMatches, OpenHandles, BlockCache.Valid, BlockCache.Coherent, LogTable, IsRun, JobMatches, IsHeld, Fits, Records.View;
    var stored;
    ghost var truth, actions', states';
    stored, after, truth, actions', states' := OpenStored(cfg, bloom, dir, wal, if states != [] then Last(states).disk.runs else map[], actions, states);
    if stored.Err? {
      return Err(stored.error), after;
    }
    LeftSome(cfg, dir, wal, actions, states);
    var cache := new BlockCache(cacheBytes);
    var e := Recover(cfg, bloom, noise, cache, after, stored.value, truth, actions', states');
    e.Shown();
    r, after := Ok(e), e.dir;
  }

  // -------------------------------------------------------------- power loss

  /** The directory after power is lost: temporaries may be torn or missing. */
  function Torn(dir: Dir, runTmps: map<nat, seq<byte>>, sidecarTmps: map<nat, set<Key>>, manifestTmp: Option<string>): Dir {
    dir.(runTmps := runTmps, sidecarTmps := sidecarTmps, manifestTmp := manifestTmp)
  }

  /** Losing power between any two effects leaves a directory `OpenWith` opens. */
  lemma PowerLoss(e: Engine, torn: Dir, junk: Temps)
    requires e.Linked() && Fits(LogTable(e.DiskNow().log)) && Roomy(e.DiskNow())
    requires torn == Torn(e.dir, torn.runTmps, junk.sidecars, torn.manifestTmp)
    requires junk.runs.Keys == torn.runTmps.Keys && (junk.manifest.Some? <==> torn.manifestTmp.Some?)
    ensures var s := Do(e.cfg, e.Now(), Crash(junk));
            && LeftBehind(e.cfg, torn, e.log.wal, e.actions + [Crash(junk)], e.states + [s])
            && Readable(e.cfg, torn, e.log.wal)
            && s.h.shown == Recovered(e.cfg, e.Now().h)
  {
    hide RunsMatch, FilesMatch, LogMatches, SnapsMatch, ManifestMatches, EnabledIn, DoIn, Fits, LogTable, Readable;
    Extend(e.cfg, e.actions, e.states, Crash(junk));
    OwnDirectoryIsReadable(e.cfg, torn, e.log.wal, e.actions + [Crash(junk)], e.states + [Do(e.cfg, e.Now(), Crash(junk))]);
  }

  /** Reopening after power is lost while idle shows what survives of the history.
      That is everything a client was told: with the log, every write, and without
      it everything up to a flush, unless a flush has failed. */
  method Reopen(e: Engine, bloom: bool, noise: set<Key> -> set<Key>, cacheBytes: nat, torn: Dir) returns (r: Result<Engine>, after: Dir)
    requires e.Valid() && torn == Torn(e.dir, torn.runTmps, torn.sidecarTmps, torn.manifestTmp)
    requires Fits(LogTable(e.DiskNow().log)) && Roomy(e.DiskNow())
    ensures r.Ok? && r.value.Valid() && r.value.cfg == e.cfg && r.value.mem.entries == map[]
    ensures r.value.View() == Fold(Recovered(e.cfg, e.Now().h))
    ensures e.SessionNow().lost == map[] && (e.cfg.durable || e.mem.entries == map[]) ==> r.value.View() == e.View()
  {
    hide Engine.Linked, Engine.Caching, DirMatches, LogMatches, Fits, Records.View, Fold, SessionInv, Contents, EnabledIn, DoIn, Roomy, LogTable,
      LeftBehind, Readable, JobMatches, IsHeld;
    ghost var empty: Table := map[];
    ghost var junk := Temps(map n | n in torn.runTmps :: empty, torn.sidecarTmps,
                            if torn.manifestTmp.Some? then Some(Manifest(0, [])) else None);
    PowerLoss(e, torn, junk);
    e.Shown();
    e.Fields();
    e.Inductive();
    Survives(e.cfg, e.DiskNow(), e.SessionNow(), e.Now().h);
    r, after := OpenWith(e.cfg, bloom, noise, cacheBytes, torn, e.log.wal, e.actions + [Crash(junk)], e.states + [Do(e.cfg, e.Now(), Crash(junk))]);
  }

  lemma Survives(c: Config, d: Disk, v: Session, h: History)
    requires SessionInv(c, d, v, h) && v.writer.Free?
    ensures v.lost == map[] && (c.durable || v.mem == map[]) ==> Fold(Recovered(c, h)) == SessionView(d, v)
  {
    hide BuildInv, CompInv, Fold, View, Contents, LogTable, ListInv, BelowInv, FilesInv, SidecarsInv;
    assert map[] + v.mem == v.mem;
  }
}
