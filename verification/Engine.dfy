/** The engine's methods, each disk effect of which is one step of the machine.

    An `Engine` carries, as ghost state, the run of the step machine it has
    performed so far. Every method extends that run by one step per effect, and
    bytes and machine agree between any two, so everything proved about runs
    (crash safety at every point, snapshot reads, file safety) holds of the
    engine's own executions. Reads and compactions are in parts, so that other
    methods may come between them. */
module Engines {
  import opened Bytes
  import opened Records
  import opened Sizes
  import opened Wal
  import opened MemTables
  import opened Cache
  import SsTables
  import RunLayout
  import opened Reads
  import opened Scans
  import opened Protocol
  import opened Invariant
  import opened Recovery
  import opened Refinement
  import opened Links
  import ManifestText

  class Engine {
    const cfg: Config
    const bloom: bool
    /** Keys a filter built from the given ones answers yes for besides. */
    const noise: set<Key> -> set<Key>
    const mem: MemTable
    const log: Durability
    const cache: BlockCache
    var runs: seq<Run>
    var dir: Dir
    var nextSeq: nat
    var nextId: nat
    var pending: bool
    var job: Job
    var snaps: map<nat, Snap>
    var retired: set<nat>
    ghost var truth: Truth
    ghost var views: map<nat, Db>
    ghost var actions: seq<Action>
    ghost var states: seq<State>

    /** An engine over recovered parts; see `OpenWith`. */
    constructor (cfg: Config, bloom: bool, noise: set<Key> -> set<Key>, mem: MemTable, log: Durability, cache: BlockCache, runs: seq<Run>,
                 dir: Dir, nextSeq: nat, nextId: nat, ghost truth: Truth, ghost actions: seq<Action>, ghost states: seq<State>)
      ensures this.cfg == cfg && this.bloom == bloom && this.noise == noise && this.mem == mem && this.log == log && this.cache == cache
      ensures this.runs == runs && this.dir == dir && this.nextSeq == nextSeq && this.nextId == nextId
      ensures pending == false && job == NoJob && snaps == map[] && retired == {} && views == map[]
      ensures this.truth == truth && this.actions == actions && this.states == states
    {
      this.cfg, this.bloom, this.noise, this.mem, this.log, this.cache := cfg, bloom, noise, mem, log, cache;
      this.runs, this.dir, this.nextSeq, this.nextId := runs, dir, nextSeq, nextId;
      pending, job, snaps, retired := false, NoJob, map[], {};
      this.truth, views, this.actions, this.states := truth, map[], actions, states;
    }

    // ------------------------------------------------------------- invariants

    /** The engine has performed a run, and every read in flight still has before
        it the database of the instant it began. */
    ghost predicate Tracked()
      reads this`actions, this`states, this`views
    {
      && cfg.trigger >= 2 && IsRun(cfg, actions, states) && Last(states).phase.Running?
      && ReaderDbs(Last(states).disk.runs, Last(states).phase.v.readers) == views
    }

    ghost function Now(): State
      reads this`actions, this`states, this`views
      requires Tracked()
    {
      Last(states)
    }

    ghost function DiskNow(): Disk
      reads this`actions, this`states, this`views
      requires Tracked()
    {
      Now().disk
    }

    ghost function SessionNow(): Session
      reads this`actions, this`states, this`views
      requires Tracked()
    {
      Now().phase.v
    }

    /** Fields and machine agree; true between any two effects. */
    ghost predicate Linked()
      reads this`runs, this`dir, this`nextSeq, this`pending, this`retired, this`snaps, this`actions, this`states, this`views, mem, log
      ensures Linked() ==> Tracked()
    {
      && Tracked()
      && mem.Valid() && mem.entries == SessionNow().mem && nextSeq == SessionNow().nextSeq
      && pending == SessionNow().pending && retired == SessionNow().obsolete
      && DirMatches(dir, DiskNow()) && RunsMatch(DiskNow().runs, SessionNow().runs, runs)
      && LogMatches(cfg.durable, log.wal, DiskNow().log)
      && SnapsMatch(DiskNow().runs, SessionNow().readers, snaps)
    }

    ghost predicate Caching()
      reads this`truth, this`nextId, this`runs, this`job, this`snaps, cache, cache.Footprint()
    {
      cache.Valid() && cache.Coherent(truth) && CacheMatches(truth, nextId, OpenHandles(runs, job, snaps))
    }

    /** No method is running: the lock is free, any job and any read is between its
        parts, and the only superseded runs left are those a read still holds. */
    ghost predicate Valid()
      reads this, mem, log, cache, cache.Footprint()
    {
      && Linked() && Caching() && SessionNow().writer.Free? && Fits(mem.entries) && nextSeq < U64
      && JobMatches(DiskNow().runs, SessionNow().comp, job)
      && (forall n :: n in retired ==> IsHeld(snaps, n)) && SessionNow().doomed == {}
      && (cfg.durable ==> log.wal.Some?)
    }

    /** The database a client sees. */
    ghost function View(): Db
      reads this`actions, this`states, this`views
      requires Tracked()
    {
      SessionView(DiskNow(), SessionNow())
    }

    /** The machine's side of an effect. */
    ghost method Tick(a: Action)
      requires Tracked() && !a.Crash? && !a.BeginRead? && !a.EndRead? && EnabledIn(cfg, DiskNow(), SessionNow(), a)
      modifies this`actions, this`states
      ensures Tracked() && actions == old(actions) + [a] && old(states) <= states
      ensures DiskNow() == DoIn(cfg, old(DiskNow()), old(SessionNow()), a).0
      ensures SessionNow() == DoIn(cfg, old(DiskNow()), old(SessionNow()), a).1
      ensures Now().h == DoHistory(cfg, old(SessionNow()), old(Now()).h, a)
    {
      hide EnabledIn, DoIn, DoHistory, SessionInv, ReaderDbs, Do;
      var s := Now();
      Inductive();
      ReadersUndisturbed(cfg, s.disk, s.phase.v, s.h, a);
      Extend(cfg, actions, states, a);
      StepIn(cfg, s, a);
      actions := actions + [a];
      states := states + [Do(cfg, s, a)];
    }

    lemma Inductive()
      requires Tracked()
      ensures SessionInv(cfg, DiskNow(), SessionNow(), Now().h)
    {
      hide SessionInv;
      RunInvariant(cfg, actions, states, |states| - 1);
    }

    /** The cache's own objects are none of the engine's other parts. */
    lemma Apart()
      ensures mem !in cache.Footprint() && log !in cache.Footprint() && this !in cache.Footprint()
    {
    }

    lemma Fields()
      requires Linked()
      ensures mem.Valid() && mem.entries == SessionNow().mem && nextSeq == SessionNow().nextSeq
      ensures pending == SessionNow().pending && retired == SessionNow().obsolete
      ensures RunsMatch(DiskNow().runs, SessionNow().runs, runs) && SnapsMatch(DiskNow().runs, SessionNow().readers, snaps)
    {
      hide RunsMatch, DirMatches, LogMatches, SnapsMatch;
    }

    lemma Installed(num: nat)
      requires Linked() && num in DiskNow().runs
      ensures num in dir.runs && dir.runs[num] == Image(DiskNow().runs[num]) && Fits(DiskNow().runs[num])
    {
      hide RunsMatch, LogMatches, SnapsMatch, Fits;
    }

    /** With the lock free, the visible database is what the history shows. */
    lemma Shown()
      requires Tracked() && SessionNow().writer.Free?
      ensures View() == Fold(Now().h.shown)
    {
      hide SessionInv;
      Inductive();
      FreeView(cfg, DiskNow(), SessionNow(), Now().h);
    }

    // ------------------------------------------------------------- write path

    /** Take the write lock. */
    ghost method TakeLock(batch: Batch)
      requires Linked() && SessionNow().writer.Free?
      modifies this`actions, this`states
      ensures Linked() && DiskNow() == old(DiskNow()) && SessionNow() == old(SessionNow()).(writer := Started(batch), op := Some(batch))
      ensures Now().h == old(Now()).h && old(states) <= states
    {
      hide RunsMatch, DirMatches, LogMatches, SnapsMatch;
      Tick(BeginWrite(batch));
    }

    /** Make the batch durable, before it is acknowledged. */
    method LogWrite(batch: Batch)
      requires Linked() && SessionNow().writer == Started(batch) && Loggable(batch) && (cfg.durable ==> log.wal.Some?)
      modifies this`actions, this`states, log
      ensures Linked() && DiskNow() == DoAppendLog(cfg, old(DiskNow()), batch) && (cfg.durable ==> log.wal.Some?)
      ensures SessionNow() == old(SessionNow()).(writer := Logged(batch))
      ensures Now().h == old(Now()).h.(shown := old(Now()).h.shown + [batch], logged := old(Now()).h.logged + [batch])
      ensures old(states) <= states
    {
      hide RunsMatch, FilesMatch, SnapsMatch, ManifestMatches, Decoded;
      if cfg.durable {
        var _ := log.LogBatch(batch);
      }
      Tick(AppendLog);
    }

    /** Buffer the logged batch. */
    method BufferWrite(batch: Batch)
      requires Linked() && SessionNow().writer == Logged(batch)
      modifies this`actions, this`states, mem
      ensures Linked() && DiskNow() == old(DiskNow())
      ensures SessionNow() == old(SessionNow()).(mem := ApplyAll(old(mem.entries), batch), writer := Applied)
      ensures Now().h == old(Now()).h && old(states) <= states
    {
      hide RunsMatch, DirMatches, LogMatches, SnapsMatch;
      Wal.ApplyBatch(mem, batch);
      Tick(Action.ApplyBatch);
    }

    /** Release the lock: the write is acknowledged. */
    ghost method FinishWrite()
      requires Linked() && SessionNow().writer.Applied? && !Full(cfg, SessionNow().mem)
      modifies this`actions, this`states
      ensures Linked() && DiskNow() == old(DiskNow())
      ensures SessionNow() == old(SessionNow()).(writer := Free, op := None)
      ensures Now().h == old(Now()).h && old(states) <= states
    {
      hide RunsMatch, DirMatches, LogMatches, SnapsMatch, Full;
      Tick(EndWrite);
    }

    // ------------------------------------------------------------------- flush

    /** Empty the buffer and reserve a run number. */
    method TakeBuffer() returns (entries: seq<Entry>, num: nat)
      requires Linked() && Caching() && EnabledIn(cfg, DiskNow(), SessionNow(), TakeMemtable)
      modifies this`nextSeq, this`actions, this`states, mem
      ensures Linked() && Caching() && DiskNow() == old(DiskNow()) && SessionNow() == DoTakeMemtable(old(SessionNow()))
      ensures num == old(nextSeq) && nextSeq == num + 1 && Ascending(entries) && TableOf(entries) == old(mem.entries) == old(SessionNow()).mem
      ensures Now().h == old(Now()).h && old(states) <= states
    {
      hide RunsMatch, DirMatches, LogMatches, SnapsMatch, Caching;
      Apart();
      entries := mem.Iter();
      var _ := mem.Take();
      num := nextSeq;
      nextSeq := nextSeq + 1;
      Tick(TakeMemtable);
    }

    /** Write a run's bytes to a temporary file. */
    method WriteTemporary(who: Who, num: nat, file: seq<byte>, ghost t: Table)
      requires Linked() && BuildOf(SessionNow(), who).Some?
      requires var b := BuildOf(SessionNow(), who).value;
               b.num == num && b.stage == Reserved && (who == Flusher ==> b.table == t)
      requires who == Compactor ==> Present(DiskNow().runs, SessionNow().comp.inputs)
                                    && t == Compacted(Contents(DiskNow().runs, SessionNow().comp.inputs))
      modifies this`dir, this`actions, this`states
      ensures Linked() && dir == old(dir).(runTmps := old(dir).runTmps[num := file])
      ensures SessionNow() == SetBuild(old(SessionNow()), who, Build(num, t, RunTmp))
      ensures DiskNow() == old(DiskNow()).(temps := old(DiskNow()).temps.(runs := old(DiskNow()).temps.runs[num := t]))
      ensures Now().h == old(Now()).h && old(states) <= states
    {
      hide RunsMatch, FilesMatch, ManifestMatches, LogMatches, SnapsMatch, Contents, Compacted;
      dir := dir.(runTmps := dir.runTmps[num := file]);
      Tick(WriteRunTmp(who));
    }

    /** Rename the temporary into place. */
    method RenameTemporary(who: Who, num: nat, ghost t: Table)
      requires Linked() && BuildOf(SessionNow(), who).Some?
      requires BuildOf(SessionNow(), who).value == Build(num, t, RunTmp)
      requires num in dir.runTmps && dir.runTmps[num] == Image(t) && Fits(t) && num !in DiskNow().runs
      requires num !in SessionNow().runs && Unread(SessionNow().readers, num) && RunOf(DiskNow().temps.runs, num) == t
      modifies this`dir, this`actions, this`states
      ensures Linked() && dir == old(dir).(runs := dir.runs, runTmps := dir.runTmps)
      ensures SessionNow() == SetBuild(old(SessionNow()), who, Build(num, t, RunFile))
      ensures DiskNow() == old(DiskNow()).(runs := old(DiskNow()).runs[num := t], temps := DiskNow().temps)
      ensures Now().h == old(Now()).h && old(states) <= states
    {
      hide RunsMatch, Fits, Image, LogMatches, SnapsMatch, ManifestMatches, EnabledIn, DoIn, FilesMatch, DoHistory;
      ghost var d, v := DiskNow(), SessionNow();
      InstallStep(cfg, d, v, Now().h, who, num, t);
      InstalledFrame(d.runs, num, t, v.runs, runs, v.readers, snaps);
      FileInstalled(dir.runs, d.runs, num, t);
      dir := dir.(runs := dir.runs[num := dir.runTmps[num]], runTmps := dir.runTmps - {num});
      Tick(InstallRun(who));
    }

    /** Write the run's filter to a temporary file. */
    method WriteFilter(who: Who, num: nat, keys: set<Key>, ghost t: Table)
      requires Linked() && BuildOf(SessionNow(), who).Some? && BuildOf(SessionNow(), who).value == Build(num, t, RunFile)
      requires keys == t.Keys
      modifies this`dir, this`actions, this`states
      ensures Linked() && dir == old(dir).(sidecarTmps := old(dir).sidecarTmps[num := keys + noise(keys)])
      ensures SessionNow() == SetBuild(old(SessionNow()), who, Build(num, t, SidecarTmp))
      ensures DiskNow() == old(DiskNow()).(temps := old(DiskNow()).temps.(sidecars := dir.sidecarTmps))
      ensures Now().h == old(Now()).h && old(states) <= states
    {
      hide RunsMatch, FilesMatch, ManifestMatches, LogMatches, SnapsMatch;
      dir := dir.(sidecarTmps := dir.sidecarTmps[num := keys + noise(keys)]);
      Tick(WriteSidecarTmp(who, noise(keys)));
    }

    /** Rename the filter into place. */
    method RenameFilter(who: Who, num: nat, ghost t: Table)
      requires Linked() && BuildOf(SessionNow(), who).Some? && BuildOf(SessionNow(), who).value == Build(num, t, SidecarTmp)
      requires num in dir.sidecarTmps
      modifies this`dir, this`actions, this`states
      ensures Linked() && dir.runs == old(dir).runs
      ensures SessionNow() == SetBuild(old(SessionNow()), who, Build(num, t, SidecarFile))
      ensures DiskNow() == old(DiskNow()).(sidecars := DiskNow().sidecars, temps := DiskNow().temps)
      ensures Now().h == old(Now()).h && old(states) <= states
    {
      hide RunsMatch, FilesMatch, ManifestMatches, LogMatches, SnapsMatch;
      dir := dir.(sidecars := dir.sidecars[num := dir.sidecarTmps[num]], sidecarTmps := dir.sidecarTmps - {num});
      Tick(InstallSidecar(who));
    }

    /** The first `effects` of the effects that put a run's files in place, on behalf
        of either thread: the file, then its filter, each written and renamed. */
    method WriteSome(who: Who, num: nat, file: seq<byte>, keys: set<Key>, effects: nat, ghost t: Table)
      requires Linked() && BuildOf(SessionNow(), who).Some?
      requires var b := BuildOf(SessionNow(), who).value;
               b.num == num && b.stage == Reserved && (who == Flusher ==> b.table == t)
      requires who == Compactor ==> t == Compacted(Contents(DiskNow().runs, SessionNow().comp.inputs))
      requires Fits(t) && file == Image(t) && keys == t.Keys
      modifies this`dir, this`actions, this`states
      ensures Linked()
      ensures SessionNow() == if effects == 0 then old(SessionNow()) else SetBuild(old(SessionNow()), who, Build(num, t, StageAfter(bloom, effects)))
      ensures num !in old(DiskNow()).runs && DiskNow().log == old(DiskNow()).log
      ensures DiskNow().runs == if effects < 2 then old(DiskNow()).runs else old(DiskNow()).runs[num := t]
      ensures Present(old(DiskNow()).runs, InputsOf(old(SessionNow()).comp))
      ensures Now().h == old(Now()).h && old(states) <= states
    {
      hide Image, Fits, RunHolds, Linked, Contents, Compacted, Tracked, Unread;
      assert num !in DiskNow().runs && num !in SessionNow().runs && Unread(SessionNow().readers, num)
             && Present(DiskNow().runs, InputsOf(SessionNow().comp)) by {
        Inductive();
        FreshBuild(cfg, DiskNow(), SessionNow(), Now().h, who);
      }
      if effects >= 1 { WriteTemporary(who, num, file, t); }
      if effects >= 2 { RenameTemporary(who, num, t); }
      if bloom && effects >= 3 { WriteFilter(who, num, keys, t); }
      if bloom && effects >= 4 { RenameFilter(who, num, t); }
    }

    /** Write and install the files of a run. The filter, if there is one, is in
        place before anything names the run. */
    method WriteFiles(who: Who, num: nat, file: seq<byte>, keys: set<Key>, ghost t: Table)
      requires Linked() && BuildOf(SessionNow(), who).Some?
      requires var b := BuildOf(SessionNow(), who).value;
               b.num == num && b.stage == Reserved && (who == Flusher ==> b.table == t)
      requires who == Compactor ==> t == Compacted(Contents(DiskNow().runs, SessionNow().comp.inputs))
      requires Fits(t) && file == Image(t) && keys == t.Keys
      modifies this`dir, this`actions, this`states
      ensures Linked() && num in dir.runs && dir.runs[num] == Image(t)
      ensures SessionNow() == SetBuild(old(SessionNow()), who, Build(num, t, if bloom then SidecarFile else RunFile))
      ensures num !in old(DiskNow()).runs && DiskNow().runs == old(DiskNow()).runs[num := t] && DiskNow().log == old(DiskNow()).log
      ensures Present(old(DiskNow()).runs, InputsOf(old(SessionNow()).comp))
      ensures Now().h == old(Now()).h && old(states) <= states
    {
      hide Image, Fits, Linked, Contents, Compacted, Tracked, SetBuild;
      WriteSome(who, num, file, keys, 4, t);
      Installed(num);
    }

    /** Open the installed file and give it a cache id of its own. */
    method OpenInstalled(num: nat, keys: set<Key>, ghost t: Table) returns (run: Run)
      requires num in dir.runs && dir.runs[num] == Image(t) && Fits(t) && keys == t.Keys && Caching()
      modifies this`nextId, this`truth
      ensures run.num == num && RunHolds(run, t)
      ensures cache.Valid() && cache.Coherent(truth) && CacheMatches(truth, nextId, OpenHandles(runs, job, snaps) + {run})
    {
      hide RunHolds, Image, Fits, Cacheable, OpenHandles, SsTables.Opened;
      var result := OpenRun(num, nextId, dir.runs[num], if bloom then Some(keys + noise(keys)) else None, t);
      run := result.value;
      HoldsBound(run, t);
      OpenedIsCacheable(truth, nextId, OpenHandles(runs, job, snaps), run);
      truth := WithRun(truth, nextId, run.table);
      nextId := nextId + 1;
    }

    /** Write, install and open the run for a table. */
    method BuildRun(who: Who, num: nat, file: seq<byte>, keys: set<Key>, ghost t: Table) returns (run: Run)
      requires Linked() && Caching() && BuildOf(SessionNow(), who).Some?
      requires var b := BuildOf(SessionNow(), who).value;
               b.num == num && b.stage == Reserved && (who == Flusher ==> b.table == t)
      requires who == Compactor ==> t == Compacted(Contents(DiskNow().runs, SessionNow().comp.inputs))
      requires Fits(t) && file == Image(t) && keys == t.Keys
      modifies this`dir, this`nextId, this`truth, this`actions, this`states
      ensures Linked() && run.num == num && RunHolds(run, t)
      ensures cache.Valid() && cache.Coherent(truth) && CacheMatches(truth, nextId, OpenHandles(runs, job, snaps) + {run})
      ensures SessionNow() == SetBuild(old(SessionNow()), who, Build(num, t, if bloom then SidecarFile else RunFile))
      ensures num !in old(DiskNow()).runs && DiskNow().runs == old(DiskNow()).runs[num := t] && DiskNow().log == old(DiskNow()).log
      ensures Present(old(DiskNow()).runs, InputsOf(old(SessionNow()).comp))
      ensures Now().h == old(Now()).h && old(states) <= states
    {
      hide Image, Fits, RunHolds, Linked, CacheMatches, Contents, Compacted, OpenHandles, Tracked, SetBuild;
      WriteFiles(who, num, file, keys, t);
      run := OpenInstalled(num, keys, t);
    }

    /** Write the next manifest to a temporary file: the new run, then the rest. */
    method StoreManifest(num: nat)
      requires Linked() && SessionNow().writer.Building? && Built(SessionNow().writer.b) && SessionNow().writer.b.num == num
      modifies this`dir, this`actions, this`states
      ensures Linked() && SessionNow() == old(SessionNow()).(writer := FlushStored(old(SessionNow()).writer.b))
      ensures var m := Manifest(nextSeq, [num] + SessionNow().runs);
              && dir == old(dir).(manifestTmp := Some(ManifestBody(m)))
              && DiskNow() == old(DiskNow()).(temps := old(DiskNow()).temps.(manifest := Some(m)))
      ensures Now().h == old(Now()).h && old(states) <= states
    {
      hide FilesMatch, LogMatches, RunHolds, SnapsMatch, ManifestMatches, ManifestText.Text;
      RunsMatchHold(DiskNow().runs, SessionNow().runs, runs);
      var body := ManifestText.Store(nextSeq, ManifestText.Names([num] + Nums(runs)));
      dir := dir.(manifestTmp := Some(body));
      Tick(Action.StoreManifest);
    }

    /** Commit the flushed run: the rename of the manifest is the commit point. */
    method CommitManifest(ghost m: Manifest)
      requires Linked() && SessionNow().writer.FlushStored? && Narrow(m)
      requires dir.manifestTmp == Some(ManifestBody(m)) && DiskNow().temps.manifest == Some(m)
      modifies this`dir, this`actions, this`states
      ensures Linked() && dir == old(dir).(manifest := dir.manifest, manifestTmp := None)
      ensures SessionNow() == old(SessionNow()).(writer := FlushCommitted(old(SessionNow()).writer.b))
      ensures DiskNow() == old(DiskNow()).(manifest := Some(m), temps := DiskNow().temps)
      ensures Now().h == old(Now()).h.(base := |old(Now()).h.shown|) && old(states) <= states
    {
      hide FilesMatch, LogMatches, RunsMatch, SnapsMatch, ManifestBody;
      dir := dir.(manifest := dir.manifestTmp, manifestTmp := None);
      Tick(CommitFlush);
    }

    /** Make the run the newest of the live list. */
    method Publish(run: Run)
      requires Linked() && SessionNow().writer.FlushCommitted? && run.num == SessionNow().writer.b.num
      requires RunHolds(run, RunOf(DiskNow().runs, run.num))
      modifies this`runs, this`actions, this`states
      ensures Linked() && runs == [run] + old(runs)
      ensures DiskNow() == old(DiskNow()) && SessionNow() == DoPublishFlush(old(SessionNow()))
      ensures Now().h == old(Now()).h && old(states) <= states
    {
      hide DirMatches, LogMatches, RunHolds, SnapsMatch;
      runs := [run] + runs;
      Tick(PublishFlush);
    }

    /** Close the log and remove its file. */
    method RemoveLog()
      requires Linked() && cfg.durable && SessionNow().writer.FlushPublished?
      modifies this`actions, this`states, log
      ensures Linked() && SessionNow() == old(SessionNow()).(writer := FlushUnlogged(old(SessionNow()).writer.b), lost := map[])
      ensures DiskNow() == old(DiskNow()).(log := None)
      ensures Now().h == old(Now()).h.(logged := old(Now()).h.shown) && old(states) <= states
    {
      hide FilesMatch, RunsMatch, SnapsMatch, ManifestMatches, Decoded;
      log.Remove();
      Tick(Action.RemoveLog);
    }

    /** Start an empty log, release the lock and ask for a compaction if there are
        enough runs. */
    method FinishFlush()
      requires Linked() && if cfg.durable then SessionNow().writer.FlushUnlogged? else SessionNow().writer.FlushPublished?
      modifies this`pending, this`actions, this`states, log
      ensures Linked() && SessionNow() == DoEndFlush(cfg, old(SessionNow())) && (cfg.durable ==> log.wal.Some?)
      ensures DiskNow() == if cfg.durable then old(DiskNow()).(log := Some([])) else old(DiskNow())
      ensures pending == (old(pending) || |runs| >= cfg.trigger)
      ensures Now().h == old(Now()).h && old(states) <= states
    {
      hide FilesMatch, RunsMatch, SnapsMatch, ManifestMatches, Decoded;
      RunsMatchHold(DiskNow().runs, SessionNow().runs, runs);
      if cfg.durable {
        log.Reopen();
      }
      if |runs| >= cfg.trigger {
        pending := true;
      }
      Tick(EndFlush);
    }

    /** The whole of the manifest's part. */
    method InstallManifest(num: nat)
      requires Linked() && SessionNow().writer.Building? && Built(SessionNow().writer.b) && SessionNow().writer.b.num == num && nextSeq < U64
      modifies this`dir, this`actions, this`states
      ensures Linked() && SessionNow() == old(SessionNow()).(writer := FlushCommitted(old(SessionNow()).writer.b))
      ensures DiskNow() == old(DiskNow()).(manifest := DiskNow().manifest, temps := DiskNow().temps)
      ensures Now().h.shown == old(Now()).h.shown && Now().h.logged == old(Now()).h.logged && old(states) <= states
    {
      hide Linked, Tracked, Narrow, ManifestBody, SessionInv;
      StoreManifest(num);
      ghost var m := Manifest(nextSeq, [num] + SessionNow().runs);
      assert Narrow(m) by {
        Inductive();
        Fields();
        ListNarrow(cfg, DiskNow(), SessionNow(), Now().h, m.live);
      }
      CommitManifest(m);
    }

    /** Empty the log, if there is one, and release the lock. */
    method Rotate()
      requires Linked() && SessionNow().writer.FlushPublished?
      modifies this`pending, this`actions, this`states, log
      ensures Linked() && (cfg.durable ==> log.wal.Some?) && pending == (old(pending) || |runs| >= cfg.trigger)
      ensures SessionNow() == DoEndFlush(cfg, old(SessionNow()).(lost := SessionNow().lost))
      ensures DiskNow() == old(DiskNow()).(log := if cfg.durable then Some([]) else old(DiskNow()).log)
      ensures Now().h.shown == old(Now()).h.shown && old(states) <= states
    {
      hide Linked, Tracked;
      if cfg.durable {
        RemoveLog();
      }
      FinishFlush();
    }

    /** Commit a built run, publish it, empty the log and release the lock. */
    method CommitFlushed(run: Run)
      requires Linked() && SessionNow().writer.Building? && Built(SessionNow().writer.b) && SessionNow().writer.b.num == run.num
      requires RunHolds(run, RunOf(DiskNow().runs, run.num)) && nextSeq < U64
      modifies this`runs, this`dir, this`pending, this`actions, this`states, log
      ensures Linked() && runs == [run] + old(runs) && (cfg.durable ==> log.wal.Some?) && pending == (old(pending) || |runs| >= cfg.trigger)
      ensures var v := SessionNow();
              v == DoEndFlush(cfg, old(SessionNow()).(runs := v.runs, lost := v.lost))
      ensures DiskNow().runs == old(DiskNow()).runs && (cfg.durable ==> DiskNow().log == Some([]))
      ensures Now().h.shown == old(Now()).h.shown && old(states) <= states
    {
      hide RunHolds, Linked, Tracked;
      InstallManifest(run.num);
      Publish(run);
      Rotate();
    }

    /** The bytes of a run, and the keys its filter is built from. */
    method EncodeRun(entries: seq<Entry>, ghost t: Table) returns (file: seq<byte>, keys: set<Key>)
      requires Caching() && Ascending(entries) && TableOf(entries) == t && Fits(t)
      ensures Caching() && file == Image(t) && keys == t.Keys
    {
      hide Image, Fits, Caching, RunLayout.FileOf;
      TakenEntries(entries, t);
      Apart();
      var written := WriteRun(entries);
      file := written.value;
      keys := set e | e in entries :: e.key;
    }

    /** Nothing the log or the live list does concerns the cache. */
    lemma Cached(was: seq<Run>, run: Run)
      requires cache.Valid() && cache.Coherent(truth) && CacheMatches(truth, nextId, OpenHandles(was, job, snaps) + {run})
      requires runs == [run] + was
      ensures Caching()
    {
      hide CacheMatches, BlockCache.Valid, BlockCache.Coherent;
      CacheSubset(truth, nextId, OpenHandles(was, job, snaps) + {run}, OpenHandles(runs, job, snaps));
    }

    /** Build the run of a taken buffer. */
    method BuildTaken(entries: seq<Entry>, num: nat, ghost t: Table) returns (run: Run)
      requires Linked() && Caching() && SessionNow().writer == Building(Build(num, t, Reserved))
      requires Ascending(entries) && TableOf(entries) == t && Fits(t)
      modifies this`dir, this`nextId, this`truth, this`actions, this`states
      ensures Linked() && run.num == num && RunHolds(run, t)
      ensures cache.Valid() && cache.Coherent(truth) && CacheMatches(truth, nextId, OpenHandles(runs, job, snaps) + {run})
      ensures SessionNow() == old(SessionNow()).(writer := Building(Build(num, t, if bloom then SidecarFile else RunFile)))
      ensures DiskNow().runs == old(DiskNow()).runs[num := t]
      ensures forall n :: n in InputsOf(SessionNow().comp) ==> RunOf(DiskNow().runs, n) == RunOf(old(DiskNow()).runs, n)
      ensures Now().h == old(Now()).h && old(states) <= states
    {
      hide Image, Fits, RunHolds, Linked, CacheMatches, Tracked, OpenHandles, Caching, BlockCache.Valid, BlockCache.Coherent;
      var file, keys := EncodeRun(entries, t);
      Apart();
      run := BuildRun(Flusher, num, file, keys, t);
    }

    /** Turn the taken buffer into the newest run of the list. */
    method FlushTaken(entries: seq<Entry>, num: nat, ghost t: Table)
      requires Linked() && Caching() && SessionNow().writer == Building(Build(num, t, Reserved)) && SessionNow().mem == map[] && nextSeq < U64
      requires Ascending(entries) && TableOf(entries) == t && Fits(t)
      requires JobMatches(DiskNow().runs, SessionNow().comp, job)
      requires (forall n :: n in retired ==> IsHeld(snaps, n)) && SessionNow().doomed == {}
      modifies this`runs, this`dir, this`pending, this`nextId, this`truth, this`actions, this`states, log
      ensures Valid() && mem.entries == map[] && (cfg.durable ==> DiskNow().log == Some([]))
      ensures |runs| == |old(runs)| + 1 && runs[1..] == old(runs) && pending == (old(pending) || |runs| >= cfg.trigger)
      ensures Now().h.shown == old(Now()).h.shown && old(states) <= states
    {
      hide Fits, RunHolds, Linked, CacheMatches, JobMatches, Tracked, OpenHandles, IsHeld, Caching, BlockCache.Valid, BlockCache.Coherent;
      ghost var tables, comp := DiskNow().runs, SessionNow().comp;
      var run := BuildTaken(entries, num, t);
      Apart();
      CommitFlushed(run);
      Cached(old(runs), run);
      JobFrame(tables, DiskNow().runs, comp, job);
      EmptyFits();
      Fields();
    }

    method FlushLocked()
      requires Linked() && Caching() && Fits(mem.entries) && EnabledIn(cfg, DiskNow(), SessionNow(), TakeMemtable) && nextSeq + 1 < U64
      requires JobMatches(DiskNow().runs, SessionNow().comp, job)
      requires (forall n :: n in retired ==> IsHeld(snaps, n)) && SessionNow().doomed == {}
      modifies this`runs, this`dir, this`nextSeq, this`pending, this`nextId, this`truth, this`actions, this`states, mem, log
      ensures Valid() && mem.entries == map[] && nextSeq == old(nextSeq) + 1
      ensures |runs| == |old(runs)| + 1 && runs[1..] == old(runs) && pending == (old(pending) || |runs| >= cfg.trigger)
      ensures Now().h.shown == old(Now()).h.shown && old(states) <= states
    {
      hide Image, Fits, Linked, JobMatches, Tracked, Caching, IsHeld;
      Fields();
      ghost var t := mem.entries;
      var entries, num := TakeBuffer();
      FlushTaken(entries, num, t);
    }

    // ------------------------------------------------------- client operations

    /** Take the lock, log the batch and buffer it. */
    method Record(batch: Batch)
      requires Linked() && Caching() && SessionNow().writer.Free? && Loggable(batch) && (cfg.durable ==> log.wal.Some?)
      modifies this`actions, this`states, mem, log
      ensures Linked() && Caching() && (cfg.durable ==> log.wal.Some?) && mem.entries == ApplyAll(old(mem.entries), batch)
      ensures DiskNow() == DoAppendLog(cfg, old(DiskNow()), batch)
      ensures SessionNow() == old(SessionNow()).(mem := mem.entries, writer := Applied, op := Some(batch))
      ensures Now().h == old(Now()).h.(shown := old(Now()).h.shown + [batch], logged := old(Now()).h.logged + [batch]) && old(states) <= states
    {
      hide Linked, Tracked, Caching, ApplyAll;
      Apart();
      TakeLock(batch);
      LogWrite(batch);
      BufferWrite(batch);
      Fields();
    }

    /** A write that leaves room in the buffer ends by letting go of the lock. */
    ghost method Acknowledge()
      requires Linked() && Caching() && SessionNow().writer.Applied? && Fits(mem.entries) && nextSeq < U64 && !Full(cfg, SessionNow().mem)
      requires JobMatches(DiskNow().runs, SessionNow().comp, job) && (cfg.durable ==> log.wal.Some?)
      requires (forall n :: n in retired ==> IsHeld(snaps, n)) && SessionNow().doomed == {}
      modifies this`actions, this`states
      ensures Valid() && Now().h == old(Now()).h && old(states) <= states
    {
      hide Linked, Tracked, Caching, Fits, JobMatches, IsHeld, Full, BlockCache.Valid, BlockCache.Coherent, CacheMatches, OpenHandles;
      Apart();
      FinishWrite();
    }

    /** The end of a write: flush if the buffer has reached its capacity. */
    method MaybeFlush()
      requires Linked() && Caching() && SessionNow().writer.Applied? && Fits(mem.entries) && nextSeq + 1 < U64
      requires JobMatches(DiskNow().runs, SessionNow().comp, job) && (cfg.durable ==> log.wal.Some?)
      requires (forall n :: n in retired ==> IsHeld(snaps, n)) && SessionNow().doomed == {}
      modifies this`runs, this`dir, this`nextSeq, this`pending, this`nextId, this`truth, this`actions, this`states, mem, log
      ensures Valid() && !Full(cfg, mem.entries) && Now().h.shown == old(Now()).h.shown && old(states) <= states
      ensures if old(mem.entries) != map[] && SizeOf(old(mem.entries)) >= cfg.capacity
              then mem.entries == map[] && |runs| == |old(runs)| + 1 && runs[1..] == old(runs) && pending == (old(pending) || |runs| >= cfg.trigger)
              else mem.entries == old(mem.entries) && runs == old(runs) && pending == old(pending)
    {
      hide Linked, Tracked, Caching, Fits, JobMatches, RunHolds, RunsMatch, SnapsMatch, IsHeld, SizeOf, EnabledIn, BlockCache.Valid, BlockCache.Coherent, CacheMatches,
        OpenHandles;
      Fields();
      Apart();
      if mem.entries != map[] && mem.approxSize >= cfg.capacity {
        FullMayTake(cfg, DiskNow(), SessionNow());
        FlushLocked();
      } else {
        Acknowledge();
      }
    }

    /** Log, buffer, and flush once the buffer has reached its capacity. */
    method Write(batch: Batch)
      requires Valid() && Loggable(batch) && Fits(ApplyAll(mem.entries, batch)) && nextSeq + 1 < U64
      modifies this`runs, this`dir, this`nextSeq, this`pending, this`nextId, this`truth, this`actions, this`states, mem, log
      ensures Valid() && !Full(cfg, mem.entries)
      ensures View() == WriteAll(old(View()), batch)
      ensures var t := ApplyAll(old(mem.entries), batch);
              if t != map[] && SizeOf(t) >= cfg.capacity
              then mem.entries == map[] && |runs| == |old(runs)| + 1 && runs[1..] == old(runs) && pending == (old(pending) || |runs| >= cfg.trigger)
              else mem.entries == t && runs == old(runs) && pending == old(pending)
      ensures Now().h.shown == old(Now()).h.shown + [batch] && old(states) <= states
    {
      hide Linked, Tracked, Caching, Fits, JobMatches, RunHolds, RunsMatch, SnapsMatch, Fold, Records.View, IsHeld, SizeOf, ApplyAll, WriteAll, Contents, Full,
        BlockCache.Valid, BlockCache.Coherent, CacheMatches, OpenHandles;
      Shown();
      Record(batch);
      MaybeFlush();
      Shown();
      FoldAppend(old(Now()).h.shown, batch);
    }

    method Put(key: Key, value: seq<byte>)
      requires Valid() && Loggable([Entry(key, Value(value))]) && Fits(mem.entries[key := Value(value)]) && nextSeq + 1 < U64
      modifies this`runs, this`dir, this`nextSeq, this`pending, this`nextId, this`truth, this`actions, this`states, mem, log
      ensures Valid() && !Full(cfg, mem.entries) && old(states) <= states
      ensures View() == old(View())[key := value]
    {
      hide Linked, Tracked, Caching, Fits, JobMatches, RunHolds, Fold, Records.View, IsHeld;
      Write([Entry(key, Value(value))]);
    }

    method Delete(key: Key)
      requires Valid() && Loggable([Entry(key, Tombstone)]) && Fits(mem.entries[key := Tombstone]) && nextSeq + 1 < U64
      modifies this`runs, this`dir, this`nextSeq, this`pending, this`nextId, this`truth, this`actions, this`states, mem, log
      ensures Valid() && !Full(cfg, mem.entries) && old(states) <= states
      ensures View() == old(View()) - {key}
    {
      hide Linked, Tracked, Caching, Fits, JobMatches, RunHolds, Fold, Records.View, IsHeld;
      Write([Entry(key, Tombstone)]);
    }

    /** Persist whatever is buffered; clients see no change. */
    method Flush()
      requires Valid() && nextSeq + 1 < U64
      modifies this`runs, this`dir, this`nextSeq, this`pending, this`nextId, this`truth, this`actions, this`states, mem, log
      ensures Valid() && mem.entries == map[]
      ensures if old(mem.entries) == map[] then runs == old(runs) && nextSeq == old(nextSeq) && dir == old(dir)
              else |runs| == |old(runs)| + 1 && runs[1..] == old(runs)
      ensures View() == old(View()) && Now().h.shown == old(Now()).h.shown && old(states) <= states
    {
      hide Linked, Tracked, Caching, Fits, JobMatches, RunHolds, Fold, Records.View, IsHeld;
      Shown();
      Fields();
      if mem.entries != map[] {
        FlushLocked();
      }
      Shown();
    }

    /** A flush returns an error: the lock is released, the buffer is gone. */
    ghost method Abandon()
      requires Linked() && SessionNow().open && (SessionNow().writer.Building? || SessionNow().writer.FlushStored?)
      modifies this`actions, this`states
      ensures Linked() && DiskNow() == old(DiskNow()) && SessionNow() == DoFailFlush(cfg, old(SessionNow()))
      ensures Now().h == DoHistory(cfg, old(SessionNow()), old(Now()).h, FailFlush) && old(states) <= states
    {
      hide RunsMatch, DirMatches, LogMatches, SnapsMatch, DoHistory;
      Tick(FailFlush);
    }

    /** The first `effects` of those that put the files of a taken buffer in place. */
    method WriteTaken(entries: seq<Entry>, num: nat, effects: nat, ghost t: Table)
      requires Linked() && Caching() && SessionNow().writer == Building(Build(num, t, Reserved))
      requires Ascending(entries) && TableOf(entries) == t && Fits(t)
      modifies this`dir, this`actions, this`states
      ensures Linked() && Caching() && SessionNow() == old(SessionNow()).(writer := Building(Build(num, t, StageAfter(bloom, effects))))
      ensures forall n :: n in InputsOf(old(SessionNow()).comp) ==> RunOf(DiskNow().runs, n) == RunOf(old(DiskNow()).runs, n)
      ensures Now().h == old(Now()).h && old(states) <= states
    {
      hide Image, Fits, RunHolds, Linked, CacheMatches, Tracked, OpenHandles, Caching, BlockCache.Valid, BlockCache.Coherent, Contents, Compacted;
      var file, keys := EncodeRun(entries, t);
      Apart();
      WriteSome(Flusher, num, file, keys, effects, t);
    }

    /** The first `effects` of a flush's effects, the rename of the manifest not among
        them: at most its temporary file. */
    method FlushSome(entries: seq<Entry>, num: nat, effects: nat, ghost t: Table)
      requires Linked() && Caching() && SessionNow().writer == Building(Build(num, t, Reserved))
      requires Ascending(entries) && TableOf(entries) == t && Fits(t)
      modifies this`dir, this`actions, this`states
      ensures Linked() && Caching()
      ensures var b := Build(num, t, StageAfter(bloom, effects));
              SessionNow() == old(SessionNow()).(writer := if effects > (if bloom then 4 else 2) then FlushStored(b) else Building(b))
      ensures forall n :: n in InputsOf(old(SessionNow()).comp) ==> RunOf(DiskNow().runs, n) == RunOf(old(DiskNow()).runs, n)
      ensures Now().h == old(Now()).h && old(states) <= states
    {
      hide Fits, Linked, Tracked, Caching, SessionNow, DiskNow, Now, InputsOf, RunOf, Ascending, TableOf, ManifestBody, StageAfter, Built,
        BlockCache.Valid, BlockCache.Coherent, CacheMatches, OpenHandles, MemTable.Valid;
      WriteTaken(entries, num, effects, t);
      Apart();
      if effects > if bloom then 4 else 2 {
        assert Built(SessionNow().writer.b) by { AllEffects(bloom, effects, num, t); }
        StoreManifest(num);
      }
    }

    /** Take the buffer, perform some of the effects, and give up. */
    method FlushLockedFails(effects: nat)
      requires Linked() && Caching() && Fits(mem.entries) && SessionNow().open && EnabledIn(cfg, DiskNow(), SessionNow(), TakeMemtable)
      modifies this`nextSeq, this`dir, this`actions, this`states, mem
      ensures Linked() && Caching() && mem.entries == map[] && nextSeq == old(nextSeq) + 1
      ensures SessionNow() == DoFailFlush(cfg, DoTakeMemtable(old(SessionNow())))
      ensures forall n :: n in InputsOf(old(SessionNow()).comp) ==> RunOf(DiskNow().runs, n) == RunOf(old(DiskNow()).runs, n)
      ensures Now().h == DoHistory(cfg, DoTakeMemtable(old(SessionNow())), old(Now()).h, FailFlush) && old(states) <= states
    {
      hide Fits, Linked, Tracked, Caching, InputsOf, RunOf, Ascending, TableOf, StageAfter, EnabledIn, DoHistory, DoFailFlush,
        BlockCache.Valid, BlockCache.Coherent, CacheMatches, OpenHandles;
      Fields();
      Apart();
      ghost var t := mem.entries;
      var entries, num := TakeBuffer();
      Fields();
      ghost var v := SessionNow();
      FlushSome(entries, num, effects, t);
      FailedAlike(cfg, v, SessionNow().writer, Now().h);
      Abandon();
    }

    /** A flush that fails after any number of its effects, the rename of the manifest
        not among them: clients are left with what the committed runs hold. */
    method FlushFails(effects: nat)
      requires Valid() && mem.entries != map[] && nextSeq + 1 < U64
      modifies this`nextSeq, this`dir, this`actions, this`states, mem
      ensures Valid() && mem.entries == map[] && old(states) <= states
      ensures View() == Fold(Committed(old(Now()).h)) && (cfg.durable ==> Now().h.logged == old(Now()).h.logged)
    {
      hide Linked, Tracked, Caching, Fits, JobMatches, RunHolds, RunsMatch, SnapsMatch, Fold, Records.View, IsHeld, SessionInv, InputsOf, RunOf, Contents,
        BlockCache.Valid, BlockCache.Coherent, CacheMatches, OpenHandles;
      Fields();
      Inductive();
      IdleIsOpen(cfg, DiskNow(), SessionNow(), Now().h);
      FlushLockedFails(effects);
      JobFrame(old(DiskNow()).runs, DiskNow().runs, SessionNow().comp, job);
      EmptyFits();
      Fields();
      Shown();
    }

    /** A write that fills the buffer, and whose flush fails as above. It returns an
        error, clients are left with what the committed runs hold, and yet the batch
        is in the log, if there is one. */
    method WriteFails(batch: Batch, effects: nat)
      requires Valid() && Loggable(batch) && Fits(ApplyAll(mem.entries, batch)) && nextSeq + 1 < U64 && Full(cfg, ApplyAll(mem.entries, batch))
      modifies this`nextSeq, this`dir, this`actions, this`states, mem, log
      ensures Valid() && mem.entries == map[] && old(states) <= states
      ensures View() == Fold(Committed(old(Now()).h)) && (cfg.durable ==> Now().h.logged == old(Now()).h.logged + [batch])
    {
      hide Linked, Tracked, Caching, Fits, JobMatches, RunHolds, RunsMatch, SnapsMatch, Fold, Records.View, IsHeld, SessionInv, InputsOf, RunOf, Contents,
        BlockCache.Valid, BlockCache.Coherent, CacheMatches, OpenHandles, ApplyAll, Full;
      Fields();
      Inductive();
      IdleIsOpen(cfg, DiskNow(), SessionNow(), Now().h);
      Record(batch);
      NotCommitted(old(Now()).h, Now().h, batch);
      Fields();
      Apart();
      FlushLockedFails(effects);
      JobFrame(old(DiskNow()).runs, DiskNow().runs, SessionNow().comp, job);
      EmptyFits();
      Fields();
      Shown();
    }

    // ------------------------------------------------------------------- reads

    /** Clone what a read needs, under the lock. */
    ghost method TakeSnapshot(id: nat)
      requires Tracked() && SessionNow().writer.Free? && id !in SessionNow().readers
      modifies this`actions, this`states, this`views
      ensures Tracked() && DiskNow() == old(DiskNow()) && views == old(views)[id := old(View())]
      ensures SessionNow() == old(SessionNow()).(readers := old(SessionNow()).readers[id := Reader(old(SessionNow()).mem, old(SessionNow()).runs)])
      ensures Now().h == old(Now()).h && old(states) <= states
    {
      hide DoHistory, Records.View, Contents, Do, ReaderDbs, IsRun;
      var s := Now();
      ReaderAdded(s.disk.runs, s.phase.v.readers, id, Reader(s.phase.v.mem, s.phase.v.runs));
      StepIn(cfg, s, BeginRead(id));
      Extend(cfg, actions, states, BeginRead(id));
      views := views[id := View()];
      actions := actions + [BeginRead(id)];
      states := states + [Do(cfg, s, BeginRead(id))];
      assert DoHistory(cfg, s.phase.v, s.h, BeginRead(id)) == s.h by { ReadHistory(cfg, s.phase.v, s.h, id); }
    }

    /** Let go of it. */
    ghost method DropSnapshot(id: nat)
      requires Tracked() && id in SessionNow().readers
      modifies this`actions, this`states, this`views
      ensures Tracked() && DiskNow() == old(DiskNow()) && views == old(views) - {id}
      ensures SessionNow() == old(SessionNow()).(readers := old(SessionNow()).readers - {id})
      ensures Now().h == old(Now()).h && old(states) <= states
    {
      hide DoHistory, Records.View, Contents, Do, SessionInv, ReaderDbs, IsRun;
      var s := Now();
      ReaderRemoved(s.disk.runs, s.phase.v.readers, id);
      Inductive();
      RunsPresent(cfg, s.disk, s.phase.v, s.h);
      StepIn(cfg, s, EndRead(id));
      Extend(cfg, actions, states, EndRead(id));
      views := views - {id};
      actions := actions + [EndRead(id)];
      states := states + [Do(cfg, s, EndRead(id))];
      assert DoHistory(cfg, s.phase.v, s.h, EndRead(id)) == s.h by { ReadHistory(cfg, s.phase.v, s.h, id); }
    }

    /** A read begins: the lock is free, and what it clones is what there is. */
    method Hold(id: nat, snap: Snap)
      requires Valid() && id !in snaps && snap.runs == runs
      requires SnapMatches(DiskNow().runs, Reader(SessionNow().mem, SessionNow().runs), snap)
      modifies this`snaps, this`actions, this`states, this`views
      ensures Valid() && snaps == old(snaps)[id := snap] && views == old(views)[id := old(View())]
      ensures View() == old(View()) && Now().h == old(Now()).h && old(states) <= states
    {
      hide RunsMatch, DirMatches, LogMatches, SnapsMatch, SnapMatches, JobMatches, Fits, CacheMatches, BlockCache.Valid, BlockCache.Coherent, IsHeld;
      hide Tracked, Records.View, Contents;
      Apart();
      SnapAdded(DiskNow().runs, SessionNow().readers, snaps, id, Reader(SessionNow().mem, SessionNow().runs), snap);
      assert id !in SessionNow().readers by { SnapKeys(DiskNow().runs, SessionNow().readers, snaps); }
      forall n | n in retired ensures IsHeld(snaps[id := snap], n) { StillHeld(snaps, id, snap, n); }
      CacheSubset(truth, nextId, OpenHandles(runs, job, snaps), OpenHandles(runs, job, snaps[id := snap]));
      TakeSnapshot(id);
      snaps := snaps[id := snap];
    }

    /** Delete the file of a superseded run whose last handle is gone. */
    method DropFile(num: nat)
      requires Linked() && num in retired && num !in SessionNow().runs && num !in InputsOf(SessionNow().comp) && Unread(SessionNow().readers, num)
      requires SessionNow().doomed == {}
      modifies this`dir, this`retired, this`actions, this`states
      ensures Linked() && retired == old(retired) - {num}
      ensures DiskNow() == old(DiskNow()).(runs := old(DiskNow()).runs - {num})
      ensures SessionNow() == old(SessionNow()).(obsolete := retired, doomed := {num})
      ensures Now().h == old(Now()).h && old(states) <= states
    {
      hide RunsMatch, LogMatches, SnapsMatch, ManifestMatches, FilesMatch, EnabledIn, DoIn, DoHistory, Unread;
      ghost var d, v := DiskNow(), SessionNow();
      DropStep(cfg, d, v, Now().h, num);
      DroppedFrame(d.runs, num, v.runs, runs, v.readers, snaps);
      FileDropped(dir.runs, d.runs, num);
      dir := dir.(runs := dir.runs - {num});
      retired := retired - {num};
      Tick(DropRun(num));
    }

    /** Then its filter. */
    method DropFilter(num: nat)
      requires Linked() && SessionNow().doomed == {num}
      modifies this`dir, this`actions, this`states
      ensures Linked() && SessionNow() == old(SessionNow()).(doomed := {})
      ensures DiskNow() == old(DiskNow()).(sidecars := DiskNow().sidecars)
      ensures Now().h == old(Now()).h && old(states) <= states
    {
      hide RunsMatch, LogMatches, SnapsMatch, ManifestMatches, FilesMatch;
      dir := dir.(sidecars := dir.sidecars - {num});
      Tick(DropSidecar(num));
      assert {num} - {num} == {};
    }

    /** Drop the last handles of a list: the files of superseded runs that no read
        holds are deleted. */
    method DropLoose(nums: seq<nat>)
      requires Linked() && SessionNow().doomed == {} && (SessionNow().comp.Done? ==> SessionNow().comp.inputs == [])
      modifies this`dir, this`retired, this`actions, this`states
      ensures Linked() && retired == old(retired) - Loose(old(retired), snaps, nums)
      ensures SessionNow() == old(SessionNow()).(obsolete := retired)
      ensures DiskNow().runs == old(DiskNow()).runs - Loose(old(retired), snaps, nums)
      ensures forall n :: n in InputsOf(SessionNow().comp) ==> RunOf(DiskNow().runs, n) == RunOf(old(DiskNow()).runs, n)
      ensures Now().h == old(Now()).h && old(states) <= states
    {
      hide Linked, Tracked, SessionInv, IsHeld, InputsOf, Loose, RunOf;
      Fields();
      Inductive();
      RetiredUnlisted(cfg, DiskNow(), SessionNow(), Now().h);
      LooseFrame(DiskNow().runs, retired, snaps, nums, InputsOf(SessionNow().comp));
      NoneLoose(retired, snaps);
      for i := 0 to |nums|
        invariant Linked() && retired == old(retired) - Loose(old(retired), snaps, nums[..i])
        invariant SessionNow() == old(SessionNow()).(obsolete := retired)
        invariant DiskNow().runs == old(DiskNow()).runs - Loose(old(retired), snaps, nums[..i])
        invariant Now().h == old(Now()).h && old(states) <= states
      {
        LooseNext(old(retired), snaps, nums, i);
        if nums[i] in retired && !IsHeld(snaps, nums[i]) {
          DropOne(nums[i]);
        }
      }
      assert nums[..|nums|] == nums;
    }

    method DropOne(num: nat)
      requires Linked() && num in retired && !IsHeld(snaps, num)
      requires SessionNow().doomed == {} && (SessionNow().comp.Done? ==> SessionNow().comp.inputs == [])
      modifies this`dir, this`retired, this`actions, this`states
      ensures Linked() && retired == old(retired) - {num} && SessionNow() == old(SessionNow()).(obsolete := retired)
      ensures DiskNow().runs == old(DiskNow()).runs - {num}
      ensures num !in SessionNow().runs && num !in InputsOf(SessionNow().comp)
      ensures Now().h == old(Now()).h && old(states) <= states
    {
      hide Linked, Tracked, SessionInv, IsHeld, Unread, InputsOf;
      Fields();
      HeldMeansRead(DiskNow().runs, SessionNow().readers, snaps, num);
      Inductive();
      ObsoleteUnlisted(cfg, DiskNow(), SessionNow(), Now().h, num);
      DropFile(num);
      DropFilter(num);
    }

    /** A read ends, and with it the last use some superseded runs had. */
    method Release(id: nat)
      requires Valid() && id in snaps
      modifies this`snaps, this`dir, this`retired, this`actions, this`states, this`views
      ensures Valid() && snaps == old(snaps) - {id} && views == old(views) - {id}
      ensures View() == old(View()) && Now().h == old(Now()).h && old(states) <= states
    {
      hide Linked, Tracked, Caching, JobMatches, Fits, IsHeld, Records.View, Fold, Loose, Nums;
      Shown();
      Apart();
      JobNotDone(DiskNow().runs, SessionNow().comp, job);
      var last := Nums(snaps[id].runs);
      Forget(id);
      DropLoose(last);
      JobFrame(old(DiskNow()).runs, DiskNow().runs, SessionNow().comp, job);
      forall n | n in retired ensures IsHeld(snaps, n) {
        if !IsHeld(snaps, n) { LooseIfLast(old(retired), old(snaps), id, n); }
      }
      Shown();
    }

    /** The handles of a read are gone. */
    method Forget(id: nat)
      requires Linked() && Caching() && id in snaps
      modifies this`snaps, this`actions, this`states, this`views
      ensures Linked() && Caching() && snaps == old(snaps) - {id} && views == old(views) - {id}
      ensures DiskNow() == old(DiskNow()) && SessionNow() == old(SessionNow()).(readers := old(SessionNow()).readers - {id})
      ensures Now().h == old(Now()).h && old(states) <= states
    {
      hide RunsMatch, DirMatches, LogMatches, SnapsMatch, CacheMatches, BlockCache.Valid, BlockCache.Coherent, Tracked;
      Apart();
      SnapDropped(DiskNow().runs, SessionNow().readers, snaps, id);
      assert id in SessionNow().readers by { SnapKeys(DiskNow().runs, SessionNow().readers, snaps); }
      CacheSubset(truth, nextId, OpenHandles(runs, job, snaps), OpenHandles(runs, job, snaps - {id}));
      DropSnapshot(id);
      snaps := snaps - {id};
    }

    /** What a read in flight holds, and the database it will answer from. */
    lemma Held(id: nat)
      requires Linked() && id in snaps
      ensures id in SessionNow().readers && id in views
      ensures var r := SessionNow().readers[id];
              && SnapMatches(DiskNow().runs, r, snaps[id]) && RunsHold(snaps[id].runs, Contents(DiskNow().runs, r.runs))
              && views[id] == Records.View(r.mem, Contents(DiskNow().runs, r.runs))
    {
      hide DirMatches, LogMatches, SnapsMatch, Records.View, Contents, IsRun, RunsHold;
      SnapHolds(DiskNow().runs, SessionNow().readers, snaps, id);
    }

    lemma HeldCache(id: nat)
      requires Caching() && id in snaps
      ensures AllCacheable(truth, snaps[id].runs) && cache.Valid() && cache.Coherent(truth)
    {
      hide Cacheable, BlockCache.Valid, BlockCache.Coherent;
      forall i | 0 <= i < |snaps[id].runs| ensures Cacheable(truth, snaps[id].runs[i]) {
        assert snaps[id].runs[i] in snaps[id].runs;
        assert snaps[id].runs[i] in OpenHandles(runs, job, snaps);
      }
    }

    /** A point read's locked part: the buffer answers, or the runs are cloned. */
    method BeginGet(id: nat, key: Key) returns (answer: Option<Option<seq<byte>>>)
      requires Valid() && id !in snaps
      modifies this`snaps, this`actions, this`states, this`views
      ensures Valid() && View() == old(View()) && old(states) <= states
      ensures answer.Some? ==> answer.value == ValueAt(View(), key) && snaps == old(snaps) && views == old(views)
      ensures answer.None? ==> snaps == old(snaps)[id := Getting(key, runs)] && views == old(views)[id := View()]
    {
      hide Linked, Tracked, Caching, JobMatches, Fits, IsHeld, Records.View, Contents, RunsMatch;
      Fields();
      Apart();
      answer := LookupBuffer(mem, key);
      if answer.None? {
        Hold(id, Getting(key, runs));
      }
    }

    /** Its lock-free part, whatever has happened since: the value of the instant
        the read began. */
    method FinishGet(id: nat) returns (r: Result<Option<seq<byte>>>)
      requires Valid() && id in snaps && snaps[id].Getting?
      modifies this`snaps, this`dir, this`retired, this`actions, this`states, this`views, cache.Footprint()
      ensures Valid() && View() == old(View()) && old(states) <= states
      ensures snaps == old(snaps) - {id} && views == old(views) - {id}
      ensures id in old(views) && r == Ok(ValueAt(old(views)[id], old(snaps)[id].key))
      ensures r == var db, key := old(views)[id], old(snaps)[id].key; Ok(if key in db then Some(db[key]) else None)
    {
      hide Linked, Tracked, JobMatches, Fits, IsHeld, CacheMatches, OpenHandles, Records.View, Contents, RunsMatch, RunsHold, AllCacheable;
      hide BlockCache.Valid, BlockCache.Coherent;
      Apart();
      Held(id);
      HeldCache(id);
      ghost var reader := SessionNow().readers[id];
      ghost var ts := Contents(DiskNow().runs, reader.runs);
      BelowBuffer(reader.mem, ts, snaps[id].key);
      r := SearchRuns(snaps[id].runs, snaps[id].key, cache, truth, ts);
      Release(id);
    }

    method Get(id: nat, key: Key) returns (r: Result<Option<seq<byte>>>)
      requires Valid() && id !in snaps
      modifies this`snaps, this`dir, this`retired, this`actions, this`states, this`views, cache.Footprint()
      ensures Valid() && View() == old(View()) && snaps == old(snaps) && old(states) <= states
      ensures r == Ok(ValueAt(View(), key))
      ensures r == Ok(if key in View() then Some(View()[key]) else None)
    {
      hide Linked, Tracked, Caching, JobMatches, Fits, IsHeld, Records.View;
      var answer := BeginGet(id, key);
      if answer.Some? {
        r := Ok(answer.value);
      } else {
        r := FinishGet(id);
      }
    }

    /** A scan's locked part: the buffered entries of the range and the runs. */
    method BeginScan(id: nat, range: Range)
      requires Valid() && id !in snaps
      modifies this`snaps, this`actions, this`states, this`views
      ensures Valid() && View() == old(View()) && old(states) <= states
      ensures snaps.Keys == old(snaps).Keys + {id} && snaps[id].Ranging? && snaps[id].range == range
      ensures views == old(views)[id := View()]
    {
      hide Linked, Tracked, Caching, JobMatches, Fits, IsHeld, Records.View, Contents, RunsMatch, Clip, Listing;
      Fields();
      Apart();
      var buffered := mem.Iter();
      TakenEntries(buffered, mem.entries);
      var entries := ClipMem(buffered, range);
      Hold(id, Ranging(range, entries, runs));
    }

    /** Its lock-free part: the live pairs of the range as they were. */
    method FinishScan(id: nat) returns (r: Result<seq<Entry>>)
      requires Valid() && id in snaps && snaps[id].Ranging?
      modifies this`snaps, this`dir, this`retired, this`actions, this`states, this`views
      ensures Valid() && View() == old(View()) && old(states) <= states
      ensures snaps == old(snaps) - {id} && views == old(views) - {id}
      ensures id in old(views) && r == Ok(Listing(Values(Restrict(old(views)[id], old(snaps)[id].range))))
      ensures ListsRange(r.value, old(views)[id], old(snaps)[id].range)
    {
      hide Linked, Tracked, Caching, JobMatches, Fits, IsHeld, Records.View, Contents, RunsMatch, RunsHold, AllCacheable, Clip, Listing, Restrict, ListsRange;
      Apart();
      Held(id);
      ghost var reader := SessionNow().readers[id];
      r := Scans.Scan(snaps[id].entries, snaps[id].runs, snaps[id].range, Listing(reader.mem), Contents(DiskNow().runs, reader.runs));
      ListingListsRange(views[id], snaps[id].range);
      Release(id);
    }

    method Scan(id: nat, range: Range) returns (r: Result<seq<Entry>>)
      requires Valid() && id !in snaps
      modifies this`snaps, this`dir, this`retired, this`actions, this`states, this`views
      ensures Valid() && View() == old(View()) && old(states) <= states
      ensures r == Ok(Listing(Values(Restrict(View(), range))))
      ensures ListsRange(r.value, View(), range)
    {
      hide Linked, Tracked, Caching, JobMatches, Fits, IsHeld, Records.View, Listing, Restrict, ListsRange;
      BeginScan(id, range);
      r := FinishScan(id);
    }

    // -------------------------------------------------------------- compaction

    /** The compactor takes the request. */
    method TakeRequest()
      requires Linked() && pending && SessionNow().comp.Idle?
      modifies this`pending, this`actions, this`states
      ensures Linked() && !pending && DiskNow() == old(DiskNow()) && SessionNow() == old(SessionNow()).(pending := false, stalled := false, comp := Armed)
      ensures Now().h == old(Now()).h && old(states) <= states
    {
      hide RunsMatch, DirMatches, LogMatches, SnapsMatch;
      pending := false;
      Tick(Action.StartCompaction);
    }

    /** Under the lock, the list of runs to merge; fewer than two need no work. */
    ghost method TakeInputs()
      requires Linked() && SessionNow().comp.Armed? && SessionNow().writer.Free?
      modifies this`actions, this`states
      ensures Linked() && DiskNow() == old(DiskNow()) && |runs| == |SessionNow().runs|
      ensures SessionNow() == old(SessionNow()).(comp := if |runs| < 2 then Done([]) else Inputs(SessionNow().runs))
      ensures Now().h == old(Now()).h && old(states) <= states
    {
      hide RunsMatch, DirMatches, LogMatches, SnapsMatch;
      RunsMatchHold(DiskNow().runs, SessionNow().runs, runs);
      Tick(SnapshotInputs);
    }

    /** The compactor is idle again. */
    ghost method FinishCompaction()
      requires Linked() && SessionNow().comp == Done([])
      modifies this`actions, this`states
      ensures Linked() && DiskNow() == old(DiskNow()) && SessionNow() == old(SessionNow()).(comp := Idle)
      ensures Now().h == old(Now()).h && old(states) <= states
    {
      hide RunsMatch, DirMatches, LogMatches, SnapsMatch;
      Tick(EndCompaction);
    }

    method StartCompaction()
      requires Valid() && pending && job.NoJob?
      modifies this`pending, this`job, this`actions, this`states
      ensures Valid() && !pending && job == if |runs| < 2 then NoJob else Merging(runs)
      ensures DiskNow() == old(DiskNow()) && SessionNow().comp == if |runs| < 2 then Idle else Inputs(old(SessionNow()).runs)
      ensures View() == old(View()) && Now().h == old(Now()).h && old(states) <= states
    {
      hide Linked, Tracked, RunsMatch, Fits, CacheMatches, BlockCache.Valid, BlockCache.Coherent, Records.View, Contents, IsHeld;
      Apart();
      TakeRequest();
      TakeInputs();
      if |runs| < 2 {
        FinishCompaction();
      } else {
        CacheSubset(truth, nextId, OpenHandles(runs, job, snaps), OpenHandles(runs, Merging(runs), snaps));
        job := Merging(runs);
      }
      Fields();
    }

    /** Take a run number for the output. */
    method ReserveRun() returns (num: nat)
      requires Linked() && SessionNow().comp.Inputs?
      modifies this`nextSeq, this`actions, this`states
      ensures Linked() && DiskNow() == old(DiskNow()) && SessionNow() == DoReserveOutput(old(SessionNow()))
      ensures num == old(nextSeq) && nextSeq == num + 1
      ensures Now().h == old(Now()).h && old(states) <= states
    {
      hide RunsMatch, DirMatches, LogMatches, SnapsMatch;
      num := nextSeq;
      nextSeq := nextSeq + 1;
      Tick(ReserveOutput);
    }

    /** Merge the input runs into a new run file. */
    method BuildMerged(inputs: seq<Run>, ghost nums: seq<nat>) returns (run: Run)
      requires Linked() && Caching() && SessionNow().writer.Free? && SessionNow().comp == Inputs(nums)
      requires RunsHold(inputs, Contents(DiskNow().runs, nums)) && Fits(Compacted(Contents(DiskNow().runs, nums)))
      modifies this`nextSeq, this`dir, this`nextId, this`truth, this`actions, this`states
      ensures Linked() && cache.Valid() && cache.Coherent(truth) && CacheMatches(truth, nextId, OpenHandles(runs, job, snaps) + {run})
      ensures var t := Compacted(Contents(old(DiskNow()).runs, nums));
              && RunHolds(run, t) && run.num !in old(DiskNow()).runs && Present(old(DiskNow()).runs, nums)
              && DiskNow().runs == old(DiskNow()).runs[run.num := t]
              && SessionNow() == old(SessionNow()).(comp := Output(nums, Build(run.num, t, if bloom then SidecarFile else RunFile)),
                                                    nextSeq := nextSeq)
      ensures nextSeq == old(nextSeq) + 1 && Now().h == old(Now()).h && old(states) <= states
    {
      hide Image, Fits, RunHolds, RunsHold, Linked, CacheMatches, Tracked, OpenHandles, BlockCache.Valid, BlockCache.Coherent, Contents, Compacted;
      Fields();
      Apart();
      ghost var ts := Contents(DiskNow().runs, nums);
      var num := ReserveRun();
      var file, keys := MergeRuns(inputs, ts);
      run := BuildRun(Compactor, num, file.value, keys, Compacted(ts));
      Fields();
    }

    /** Merge the snapshot into a new run, without the lock. */
    method MergeInputs()
      requires Valid() && job.Merging? && nextSeq + 1 < U64
      requires Fits(Compacted(Contents(DiskNow().runs, SessionNow().comp.inputs)))
      modifies this`nextSeq, this`dir, this`nextId, this`truth, this`job, this`actions, this`states
      ensures Valid() && job.Merged? && job.inputs == old(job).inputs
      ensures View() == old(View()) && Now().h == old(Now()).h && old(states) <= states
    {
      hide Fits, RunHolds, RunsHold, Linked, CacheMatches, Tracked, BlockCache.Valid, BlockCache.Coherent, RunsMatch;
      hide Contents, Compacted, Fold, Records.View, JobMatches, IsHeld;
      Shown();
      Apart();
      SnapshotJob(DiskNow().runs, SessionNow().comp, job);
      ghost var tables, nums := DiskNow().runs, SessionNow().comp.inputs;
      ghost var t := Compacted(Contents(tables, nums));
      var run := BuildMerged(job.inputs, nums);
      MergedJob(tables, nums, job, run, t, SessionNow().comp);
      CacheSubset(truth, nextId, OpenHandles(runs, job, snaps) + {run}, OpenHandles(runs, Merged(job.inputs, run), snaps));
      job := Merged(job.inputs, run);
      Shown();
    }

    /** Write the swapped manifest to a temporary file. */
    method StoreSwapManifest(live: seq<nat>)
      requires Linked() && SessionNow().writer.Free? && SessionNow().comp.Output? && Built(SessionNow().comp.b)
      requires live == Swapped(SessionNow().runs, SessionNow().comp.inputs, SessionNow().comp.b.num)
      modifies this`dir, this`actions, this`states
      ensures Linked() && SessionNow() == old(SessionNow()).(writer := SwapStored)
      ensures var m := Manifest(nextSeq, live);
              && dir == old(dir).(manifestTmp := Some(ManifestBody(m)))
              && DiskNow() == old(DiskNow()).(temps := old(DiskNow()).temps.(manifest := Some(m)))
      ensures Now().h == old(Now()).h && old(states) <= states
    {
      hide FilesMatch, LogMatches, RunsMatch, SnapsMatch, ManifestMatches, ManifestText.Text, Swapped;
      var body := ManifestText.Store(nextSeq, ManifestText.Names(live));
      dir := dir.(manifestTmp := Some(body));
      Tick(Action.StoreSwapManifest);
    }

    /** Commit the swap: the manifest names the output in place of its inputs. */
    method CommitSwapManifest(ghost m: Manifest)
      requires Linked() && SessionNow().writer.SwapStored? && Narrow(m)
      requires dir.manifestTmp == Some(ManifestBody(m)) && DiskNow().temps.manifest == Some(m)
      modifies this`dir, this`actions, this`states
      ensures Linked() && SessionNow() == old(SessionNow()).(writer := SwapCommitted)
      ensures DiskNow() == old(DiskNow()).(manifest := Some(m), temps := DiskNow().temps)
      ensures Now().h == old(Now()).h && old(states) <= states
    {
      hide FilesMatch, LogMatches, RunsMatch, SnapsMatch, ManifestBody;
      dir := dir.(manifest := dir.manifestTmp, manifestTmp := None);
      Tick(CommitSwap);
    }

    /** Install the new list and mark the inputs obsolete. */
    method PublishSwapped(swapped: seq<Run>, inputs: seq<Run>)
      requires Linked() && SessionNow().writer.SwapCommitted? && SessionNow().comp.Output? && Nums(inputs) == SessionNow().comp.inputs
      requires RunsMatch(DiskNow().runs, DoPublishSwap(SessionNow()).runs, swapped)
      modifies this`runs, this`retired, this`actions, this`states
      ensures Linked() && runs == swapped && DiskNow() == old(DiskNow())
      ensures SessionNow() == DoPublishSwap(old(SessionNow())) && retired == old(retired) + (set n | n in Nums(inputs))
      ensures Now().h == old(Now()).h && old(states) <= states
    {
      hide DirMatches, LogMatches, RunsMatch, SnapsMatch, Swapped, Nums;
      runs := swapped;
      retired := retired + (set n | n in Nums(inputs));
      Tick(PublishSwap);
    }

    /** Let go of the snapshot. */
    ghost method ReleaseSnapshot()
      requires Linked() && SessionNow().comp.Done?
      modifies this`actions, this`states
      ensures Linked() && DiskNow() == old(DiskNow()) && SessionNow() == old(SessionNow()).(comp := Done([]))
      ensures Now().h == old(Now()).h && old(states) <= states
    {
      hide RunsMatch, DirMatches, LogMatches, SnapsMatch;
      Tick(ReleaseInputs);
    }

    /** The list a swap installs: runs flushed since the snapshot, then the output. */
    method SwappedList() returns (swapped: seq<Run>)
      requires Linked() && job.Merged? && JobMatches(DiskNow().runs, SessionNow().comp, job)
      ensures var v := SessionNow();
              var live := Swapped(v.runs, v.comp.inputs, v.comp.b.num);
              && Nums(swapped) == live && RunsMatch(DiskNow().runs, live, swapped) && |swapped| == |runs| - |job.inputs| + 1
              && Nums(job.inputs) == v.comp.inputs
      ensures forall r :: r in swapped ==> r in OpenHandles(runs, job, snaps)
    {
      hide SessionInv, Linked, Tracked, RunHolds;
      Fields();
      Inductive();
      SwapFacts(cfg, DiskNow(), SessionNow(), Now().h);
      RunsMatchHold(DiskNow().runs, SessionNow().runs, runs);
      RunsMatchHold(DiskNow().runs, SessionNow().comp.inputs, job.inputs);
      var kept := KeepNewer(runs, job.inputs);
      KeptMatch(DiskNow().runs, SessionNow().runs, runs, kept, Without(SessionNow().runs, SessionNow().comp.inputs), job.output);
      swapped := kept + [job.output];
    }

    /** The locked part of a compaction. */
    method InstallSwapped(swapped: seq<Run>, inputs: seq<Run>)
      requires Linked() && SessionNow().writer.Free? && SessionNow().comp.Output? && Built(SessionNow().comp.b) && nextSeq < U64
      requires Nums(swapped) == DoPublishSwap(SessionNow()).runs && RunsMatch(DiskNow().runs, Nums(swapped), swapped)
      requires Nums(inputs) == SessionNow().comp.inputs
      modifies this`runs, this`dir, this`retired, this`actions, this`states
      ensures Linked() && runs == swapped && DiskNow().runs == old(DiskNow()).runs
      ensures SessionNow() == DoPublishSwap(old(SessionNow())) && retired == old(retired) + (set n | n in Nums(inputs))
      ensures Now().h == old(Now()).h && old(states) <= states
    {
      hide Linked, Tracked, RunsMatch, Swapped, Narrow, ManifestBody, Nums, SessionInv;
      var live := Nums(swapped);
      StoreSwapManifest(live);
      ghost var m := Manifest(nextSeq, live);
      assert Narrow(m) by {
        Inductive();
        Fields();
        SwappedFrom(SessionNow().runs, SessionNow().comp.inputs, SessionNow().comp.b.num);
        ListNarrow(cfg, DiskNow(), SessionNow(), Now().h, live);
      }
      CommitSwapManifest(m);
      PublishSwapped(swapped, inputs);
    }

    /** The part after the lock: drop the snapshot, and files with it. */
    method DropInputs(inputs: seq<nat>)
      requires Linked() && SessionNow().comp.Done? && SessionNow().doomed == {}
      modifies this`dir, this`retired, this`actions, this`states
      ensures Linked() && retired == old(retired) - Loose(old(retired), snaps, inputs)
      ensures SessionNow() == old(SessionNow()).(comp := Idle, obsolete := retired)
      ensures DiskNow().runs == old(DiskNow()).runs - Loose(old(retired), snaps, inputs)
      ensures Now().h == old(Now()).h && old(states) <= states
    {
      hide Linked, Tracked, IsHeld, Loose;
      ReleaseSnapshot();
      DropLoose(inputs);
      FinishCompaction();
    }

    /** Fewer handles, the same cache. */
    lemma FewerHandles(was: seq<Run>, before: Job)
      requires cache.Valid() && cache.Coherent(truth) && CacheMatches(truth, nextId, OpenHandles(was, before, snaps))
      requires job.NoJob? && forall r :: r in runs ==> r in OpenHandles(was, before, snaps)
      ensures Caching()
    {
      hide CacheMatches, BlockCache.Valid, BlockCache.Coherent;
      CacheSubset(truth, nextId, OpenHandles(was, before, snaps), OpenHandles(runs, job, snaps));
    }

    /** Replace the inputs by the output, and delete those no read holds. */
    method SwapOutput()
      requires Valid() && job.Merged?
      modifies this`runs, this`dir, this`retired, this`job, this`actions, this`states
      ensures Valid() && job.NoJob? && |runs| == |old(runs)| - |old(job).inputs| + 1
      ensures var inputs := Nums(old(job).inputs);
              DiskNow().runs == old(DiskNow()).runs - Loose(old(retired) + (set n | n in inputs), snaps, inputs)
      ensures View() == old(View()) && Now().h == old(Now()).h && old(states) <= states
    {
      hide Linked, Tracked, CacheMatches, BlockCache.Valid, BlockCache.Coherent, Fits, RunsMatch, RunHolds, Swapped, Fold, Records.View;
      hide IsHeld, Loose, Nums, OpenHandles;
      Shown();
      Apart();
      Fields();
      var inputs := job.inputs;
      var swapped := SwappedList();
      InstallSwapped(swapped, inputs);
      DropInputs(Nums(inputs));
      job := NoJob;
      FewerHandles(old(runs), old(job));
      forall n | n in retired ensures IsHeld(snaps, n) { RetiredHeld(old(retired), Nums(inputs), snaps, n); }
      Fields();
      Shown();
    }

    /** A compaction returns an error: the lock, if it has it, is released. */
    ghost method GiveUp()
      requires Linked() && (SessionNow().comp.Inputs? || SessionNow().comp.Output?) && !SessionNow().writer.SwapCommitted?
      modifies this`actions, this`states
      ensures Linked() && DiskNow() == old(DiskNow()) && SessionNow() == DoFailCompaction(old(SessionNow()))
      ensures Now().h == old(Now()).h && old(states) <= states
    {
      hide RunsMatch, DirMatches, LogMatches, SnapsMatch;
      Tick(FailCompaction);
    }

    /** The first `effects` of a merge's effects: the number, then the files. */
    method MergeSome(inputs: seq<Run>, effects: nat, ghost nums: seq<nat>)
      requires Linked() && Caching() && SessionNow().writer.Free? && SessionNow().comp == Inputs(nums)
      requires RunsHold(inputs, Contents(DiskNow().runs, nums)) && (effects >= 2 ==> Fits(Compacted(Contents(DiskNow().runs, nums))))
      modifies this`nextSeq, this`dir, this`actions, this`states
      ensures Linked() && Caching() && nextSeq == old(nextSeq) + (if effects == 0 then 0 else 1)
      ensures SessionNow() == old(SessionNow()).(comp := SessionNow().comp, nextSeq := nextSeq)
      ensures (if effects == 0 then SessionNow().comp.Inputs? else SessionNow().comp.Output?) && SessionNow().comp.inputs == nums
      ensures Now().h == old(Now()).h && old(states) <= states
    {
      hide Image, Fits, RunsHold, RunHolds, Linked, CacheMatches, Tracked, OpenHandles, Caching, BlockCache.Valid, BlockCache.Coherent, Contents, Compacted, Present, RunsMatch, SnapsMatch;
      Fields();
      Apart();
      if effects > 0 {
        ghost var ts := Contents(DiskNow().runs, nums);
        var num := ReserveRun();
        if effects > 1 {
          var file, keys := MergeRuns(inputs, ts);
          WriteSome(Compactor, num, file.value, keys, effects - 1, Compacted(ts));
        }
      }
      Fields();
    }

    /** The first `effects` of a swap's effects, the rename of the manifest not among
        them: at most its temporary file. */
    method SwapSome(effects: nat)
      requires Valid() && job.Merged?
      modifies this`dir, this`actions, this`states
      ensures Linked() && Caching() && SessionNow() == old(SessionNow()).(writer := if effects == 0 then Free else SwapStored)
      ensures Now().h == old(Now()).h && old(states) <= states
    {
      hide Linked, Tracked, Caching, Fits, RunHolds, Swapped, Nums, IsHeld, OpenHandles, RunsMatch;
      Apart();
      if effects > 0 {
        var swapped := SwappedList();
        StoreSwapManifest(Nums(swapped));
      }
    }

    /** The end of a job: its handles go, and the files only it still held. */
    method DropJob(inputs: seq<nat>)
      requires Linked() && Caching() && SessionNow().comp.Done? && SessionNow().doomed == {}
      modifies this`dir, this`retired, this`job, this`actions, this`states
      ensures Linked() && Caching() && job.NoJob? && retired == old(retired) - Loose(old(retired), snaps, inputs)
      ensures SessionNow() == old(SessionNow()).(comp := Idle, obsolete := retired)
      ensures Now().h == old(Now()).h && old(states) <= states
    {
      hide Linked, Tracked, IsHeld, Loose, CacheMatches, BlockCache.Valid, BlockCache.Coherent;
      Apart();
      CacheSubset(truth, nextId, OpenHandles(runs, job, snaps), OpenHandles(runs, NoJob, snaps));
      job := NoJob;
      DropInputs(inputs);
    }

    /** Either, as far as the compaction has come. */
    method CompactSome(effects: nat)
      requires Valid() && !job.NoJob? && nextSeq + 1 < U64
      requires job.Merging? && effects >= 2 ==> Fits(Compacted(Contents(DiskNow().runs, SessionNow().comp.inputs)))
      modifies this`nextSeq, this`dir, this`actions, this`states
      ensures Linked() && Caching() && nextSeq < U64
      ensures SessionNow() == old(SessionNow()).(comp := SessionNow().comp, writer := SessionNow().writer, nextSeq := nextSeq)
      ensures (SessionNow().comp.Inputs? || SessionNow().comp.Output?) && (SessionNow().writer.Free? || SessionNow().writer.SwapStored?)
      ensures Now().h == old(Now()).h && old(states) <= states
    {
      hide Linked, Tracked, Caching, Fits, RunsHold, RunsMatch, RunHolds, Contents, Compacted, IsHeld;
      if job.Merging? {
        SnapshotJob(DiskNow().runs, SessionNow().comp, job);
        MergeSome(job.inputs, effects, SessionNow().comp.inputs);
      } else {
        SwapSome(effects);
        Fields();
      }
    }

    /** A compaction that fails after any number of its effects, the rename of the
        manifest not among them. Clients see no change and no run leaves the list;
        the compactor is idle, and nothing asks it to try again. */
    method CompactionFails(effects: nat)
      requires Valid() && !job.NoJob? && nextSeq + 1 < U64
      requires job.Merging? && effects >= 2 ==> Fits(Compacted(Contents(DiskNow().runs, SessionNow().comp.inputs)))
      modifies this`nextSeq, this`dir, this`retired, this`job, this`actions, this`states
      ensures Valid() && job.NoJob? && retired == old(retired)
      ensures SessionNow().comp.Idle? && SessionNow().stalled
      ensures View() == old(View()) && Now().h == old(Now()).h && old(states) <= states
    {
      hide Linked, Tracked, Caching, Fits, Contents, Compacted, Fold, Records.View, IsHeld, Loose, Nums,
        RunsMatch, SnapsMatch, RunHolds, RunsHold, InputsOf, BlockCache.Valid, BlockCache.Coherent, CacheMatches, OpenHandles;
      Shown();
      Apart();
      var inputs := Nums(job.inputs);
      CompactSome(effects);
      GiveUp();
      Fields();
      AllHeld(retired, snaps, inputs);
      DropJob(inputs);
      Fields();
      Shown();
    }

    /** One whole compaction: afterwards a single run holds what two or more held. */
    method CompactOnce()
      requires Valid() && pending && job.NoJob? && nextSeq + 1 < U64
      requires Fits(Compacted(Contents(DiskNow().runs, SessionNow().runs)))
      modifies this`runs, this`dir, this`nextSeq, this`nextId, this`pending, this`job, this`retired, this`truth, this`actions, this`states
      ensures Valid() && job.NoJob? && |runs| == if |old(runs)| < 2 then |old(runs)| else 1
      ensures View() == old(View()) && Now().h == old(Now()).h && old(states) <= states
    {
      hide Linked, Tracked, Caching, Fits, RunsMatch, RunHolds, Contents, Compacted, Records.View, IsHeld, Loose;
      StartCompaction();
      if job.Merging? {
        MergeInputs();
        SwapOutput();
      }
    }
  }

  lemma SwappedFrom(runs: seq<nat>, inputs: seq<nat>, out: nat)
    ensures forall n :: n in Swapped(runs, inputs, out) ==> n in runs || n == out
  {
    hide Without;
    WithoutFrom(runs, inputs);
  }

  lemma SnapKeys(tables: map<nat, Table>, readers: map<nat, Reader>, snaps: map<nat, Snap>)
    requires SnapsMatch(tables, readers, snaps)
    ensures forall id :: id in readers <==> id in snaps
  {
    hide SnapMatches;
    assert readers.Keys == snaps.Keys;
  }

  /** How far the files of a run are after so many effects. */
  function StageAfter(bloom: bool, effects: nat): Stage {
    if effects == 0 then Reserved
    else if effects == 1 then RunTmp
    else if !bloom || effects == 2 then RunFile
    else if effects == 3 then SidecarTmp
    else SidecarFile
  }

  /** What a failure leaves does not depend on how far the flush had come. */
  lemma FailedAlike(c: Config, v: Session, w: Writer, h: History)
    requires v.writer.Building? && (w.Building? || w.FlushStored?) && w.b.table == v.writer.b.table
    ensures DoFailFlush(c, v.(writer := w)) == DoFailFlush(c, v) && DoHistory(c, v.(writer := w), h, FailFlush) == DoHistory(c, v, h, FailFlush)
  {
  }

  lemma NotCommitted(h: History, h': History, batch: Batch)
    requires h.base <= |h.shown| && h'.shown == h.shown + [batch] && h'.base == h.base
    ensures Committed(h') == Committed(h)
  {
  }

  lemma FullMayTake(c: Config, d: Disk, v: Session)
    requires v.writer.Applied? && Full(c, v.mem)
    ensures EnabledIn(c, d, v, TakeMemtable)
  {
    hide Full;
  }

  lemma AllEffects(bloom: bool, effects: nat, num: nat, t: Table)
    requires effects > if bloom then 4 else 2
    ensures Built(Build(num, t, StageAfter(bloom, effects)))
  {
  }

  lemma AllHeld(retired: set<nat>, snaps: map<nat, Snap>, nums: seq<nat>)
    requires forall n :: n in retired ==> IsHeld(snaps, n)
    ensures Loose(retired, snaps, nums) == {}
  {
    hide IsHeld;
  }

  lemma NoneLoose(retired: set<nat>, snaps: map<nat, Snap>)
    ensures Loose(retired, snaps, []) == {}
  {
  }

  lemma LooseNext(retired: set<nat>, snaps: map<nat, Snap>, nums: seq<nat>, i: nat)
    requires i < |nums|
    ensures Loose(retired, snaps, nums[..i + 1])
            == Loose(retired, snaps, nums[..i]) + (if nums[i] in retired && !IsHeld(snaps, nums[i]) then {nums[i]} else {})
  {
    hide IsHeld;
    assert nums[..i + 1] == nums[..i] + [nums[i]];
  }

  lemma LooseIfLast(retired: set<nat>, snaps: map<nat, Snap>, id: nat, n: nat)
    requires n in retired && IsHeld(snaps, n) && !IsHeld(snaps - {id}, n)
    ensures id in snaps && n in Loose(retired, snaps - {id}, Nums(snaps[id].runs))
  {
    hide IsHeld;
    HeldOnlyHere(snaps, id, n);
  }

  /** What deleting a run file does, spelled out. */
  lemma DropStep(c: Config, d: Disk, v: Session, h: History, num: nat)
    requires num in v.obsolete && num !in v.runs && num !in InputsOf(v.comp) && Unread(v.readers, num) && v.doomed == {}
    ensures EnabledIn(c, d, v, DropRun(num)) && DoHistory(c, v, h, DropRun(num)) == h
    ensures DoIn(c, d, v, DropRun(num)) == (d.(runs := d.runs - {num}), v.(obsolete := v.obsolete - {num}, doomed := {num}))
  {
    assert v.doomed + {num} == {num};
  }

  lemma FileDropped(files: map<nat, seq<byte>>, tables: map<nat, Table>, num: nat)
    requires FilesMatch(files, tables)
    ensures FilesMatch(files - {num}, tables - {num})
  {
    hide Fits, Image;
  }

  lemma ReaderAdded(files: map<nat, Table>, readers: map<nat, Reader>, id: nat, r: Reader)
    ensures ReaderDbs(files, readers[id := r]) == ReaderDbs(files, readers)[id := Records.View(r.mem, Contents(files, r.runs))]
  {
    hide Records.View, Contents;
  }

  lemma ReaderRemoved(files: map<nat, Table>, readers: map<nat, Reader>, id: nat)
    ensures ReaderDbs(files, readers - {id}) == ReaderDbs(files, readers) - {id}
  {
    hide Records.View, Contents;
  }

  lemma ReadHistory(c: Config, v: Session, h: History, id: nat)
    ensures DoHistory(c, v, h, BeginRead(id)) == h && DoHistory(c, v, h, EndRead(id)) == h
  {
  }

  /** What the rename of a run does, spelled out. */
  lemma InstallStep(c: Config, d: Disk, v: Session, h: History, who: Who, num: nat, t: Table)
    requires BuildOf(v, who).Some? && BuildOf(v, who).value == Build(num, t, RunTmp) && RunOf(d.temps.runs, num) == t
    ensures EnabledIn(c, d, v, InstallRun(who)) && DoHistory(c, v, h, InstallRun(who)) == h
    ensures DoIn(c, d, v, InstallRun(who))
            == (d.(runs := d.runs[num := t], temps := d.temps.(runs := d.temps.runs - {num})), SetBuild(v, who, Build(num, t, RunFile)))
  {
  }

  lemma FileInstalled(files: map<nat, seq<byte>>, tables: map<nat, Table>, num: nat, t: Table)
    requires FilesMatch(files, tables) && Fits(t)
    ensures FilesMatch(files[num := Image(t)], tables[num := t])
  {
    hide Fits, Image;
  }

  /** `Do` on a running session. */
  lemma StepIn(c: Config, s: State, a: Action)
    requires s.phase.Running? && !a.Crash? && EnabledIn(c, s.disk, s.phase.v, a)
    ensures Enabled(c, s, a)
    ensures var (d', v') := DoIn(c, s.disk, s.phase.v, a);
            Do(c, s, a) == State(d', Running(v'), DoHistory(c, s.phase.v, s.h, a))
  {
    hide EnabledIn, DoIn, DoHistory;
  }
}
