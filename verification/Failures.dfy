/** Flushes that return an error.

    A flush takes the buffer before its fallible steps. After an error the session
    no longer shows what was taken, and the log, if there is one, still holds it:
    reopening brings it back, and the next successful flush, which empties the
    log, makes the loss final. This module says exactly when each of these changes
    anything. */
module Failures {
  import opened Records
  import opened Protocol
  import opened Invariant
  import opened Recovery
  import opened Refinement
  import opened Guarantees

  // -------------------------------------------------------- reopening in time

  lemma {:induction false} SpecLogGrows(labels: seq<Label>, specs: seq<Spec>, i: nat, j: nat)
    requires IsSpecRun(true, labels, specs) && i <= j < |specs| && forall k :: i <= k < j ==> !labels[k].Rotated?
    ensures specs[i].logged <= specs[j].logged
    decreases j
  {
    if i < j {
      SpecLogGrows(labels, specs, i, j - 1);
      assert SpecNext(true, specs[j - 1], labels[j - 1], specs[j]);
    }
  }

  /** With the log, until the next rotation no failed flush loses anything: a
      reopening shows every batch that was acknowledged before the failure, and
      the failed ones too. */
  lemma ReopeningShowsFailedWrites(c: Config, actions: seq<Action>, states: seq<State>, i: nat, j: nat)
    requires c.trigger >= 2 && c.durable && IsRun(c, actions, states) && i <= j < |states|
    requires forall k :: i <= k < j ==> !actions[k].RemoveLog?
    ensures Abs(states[i]).logged <= Abs(states[j]).logged
    ensures !states[j].phase.Running? ==> Abs(states[i]).logged <= Abs(states[j]).ops
    ensures !states[j].phase.Running? && Intact(Abs(states[i])) ==> Abs(states[i]).ops <= Abs(states[j]).ops
  {
    hide IsSpecRun, Fold, View, Contents;
    EngineRefinesSpec(c, actions, states);
    SpecLogGrows(LabelsOf(actions, states), AbsAll(states), i, j);
    RunInvariant(c, actions, states, j);
  }

  // ---------------------------------------------------------- the exact loss

  /** The database already answers for `k` as the record `r` does. */
  predicate Restates(db: Db, k: Key, r: Record) {
    match r
    case Value(x) => k in db && db[k] == x
    case Tombstone => k !in db
  }

  /** Every lost record is overwritten in the buffer or repeated by the runs. */
  predicate Covered(lost: Table, mem: Table, runs: seq<Table>) {
    forall k :: k in lost && k !in mem ==> Restates(View(map[], runs), k, lost[k])
  }

  lemma LostLayer(lost: Table, mem: Table, runs: seq<Table>)
    ensures View(lost + mem, runs) == View(mem, runs) <==> Covered(lost, mem, runs)
  {
    hide Overlay;
    var lower := Overlay(runs);
    var with, without := View(lost + mem, runs), View(mem, runs);
    assert View(map[], runs) == Live(lower) by { assert lower + map[] == lower; }
    forall k ensures (k in with) == (k in without) && (k in with ==> with[k] == without[k])
                     <==> (k in lost && k !in mem ==> Restates(Live(lower), k, lost[k])) { }
    if with == without {
      forall k | k in lost && k !in mem ensures Restates(Live(lower), k, lost[k]) {
        assert (k in with) == (k in without);
      }
    }
  }

  /** Whenever the lock is free, the session shows what the log would bring back
      exactly if every lost record is overwritten or repeated. */
  lemma ShownExactly(c: Config, actions: seq<Action>, states: seq<State>, i: nat)
    requires c.trigger >= 2 && IsRun(c, actions, states) && i < |states| && states[i].phase.Running?
    requires states[i].phase.v.writer.Free? || states[i].phase.v.writer.Applied?
    ensures var v := states[i].phase.v;
            Fold(states[i].h.shown) == Fold(states[i].h.logged)
            <==> Covered(v.lost, v.mem, Contents(states[i].disk.runs, v.runs))
  {
    hide View, Fold, Contents, Covered, CompInv, FlushInv, ManifestInv, LockInv, ListInv, BelowInv, FilesInv, SidecarsInv, BaseInv;
    RunInvariant(c, actions, states, i);
    var v := states[i].phase.v;
    LostLayer(v.lost, v.mem, Contents(states[i].disk.runs, v.runs));
  }

  predicate Rotating(w: Writer) {
    w.Building? || w.FlushStored? || w.FlushCommitted? || w.FlushPublished?
  }

  /** From taking the buffer to emptying the log the histories stand still. */
  lemma {:induction false} FlushHoldsStill(c: Config, actions: seq<Action>, states: seq<State>, i: nat, j: nat)
    requires c.durable && IsRun(c, actions, states) && i < j < |states| && actions[i] == TakeMemtable
    requires forall k :: i < k < j ==> !actions[k].RemoveLog? && !actions[k].FailFlush? && !actions[k].Crash?
    ensures states[i].phase.Running? && states[j].phase.Running? && Rotating(states[j].phase.v.writer)
    ensures states[j].h.shown == states[i].h.shown && states[j].h.logged == states[i].h.logged
    decreases j
  {
    hide EnabledIn, DoIn;
    var s, a := states[j - 1], actions[j - 1];
    assert Enabled(c, s, a) && states[j] == Do(c, s, a);
    if j > i + 1 { FlushHoldsStill(c, actions, states, i, j - 1); }
    assert s.phase.Running?;
    StillStep(c, s.disk, s.phase.v, s.h, a);
  }

  lemma StillStep(c: Config, d: Disk, v: Session, h: History, a: Action)
    requires c.durable && EnabledIn(c, d, v, a) && !a.RemoveLog? && !a.FailFlush?
    requires a.TakeMemtable? || Rotating(v.writer)
    ensures Rotating(DoIn(c, d, v, a).1.writer)
    ensures DoHistory(c, v, h, a).shown == h.shown && DoHistory(c, v, h, a).logged == h.logged
  {
    hide Full, Present, Swapped, ApplyAll, BuildOf, SetBuild, DoWriteRunTmp, DoInstallRun, DoWriteSidecarTmp, DoInstallSidecar;
    if OnFiles(a) { BuildUntouched(c, d, v, a); }
  }

  /** A flush, from the buffer it takes to the log it empties, loses nothing of
      what a reopening would have shown exactly if, when it begins, every lost
      record is in the buffer again or repeated by the runs. A caller can bring
      that about by writing the lost batches again. */
  lemma FlushLosesExactly(c: Config, actions: seq<Action>, states: seq<State>, i: nat, j: nat)
    requires c.trigger >= 2 && c.durable && IsRun(c, actions, states) && i < j < |actions|
    requires actions[i] == TakeMemtable && actions[j] == RemoveLog
    requires forall k :: i < k < j ==> !actions[k].RemoveLog? && !actions[k].FailFlush? && !actions[k].Crash?
    ensures states[i].phase.Running?
    ensures var v := states[i].phase.v;
            Fold(Recovered(c, states[j + 1].h)) == Fold(Recovered(c, states[j].h))
            <==> Covered(v.lost, v.mem, Contents(states[i].disk.runs, v.runs))
  {
    hide Fold, Covered, Contents, DoIn;
    FlushHoldsStill(c, actions, states, i, j);
    assert Enabled(c, states[i], actions[i]);
    ShownExactly(c, actions, states, i);
    assert Enabled(c, states[j], actions[j]) && states[j + 1] == Do(c, states[j], actions[j]);
  }

  /** A failed flush leaves the history standing for the same database exactly if
      the runs already repeat every record it took. The history counts the write
      whose own flush it is, which no client has seen yet. */
  lemma FailureTakesExactly(c: Config, actions: seq<Action>, states: seq<State>, i: nat)
    requires c.trigger >= 2 && IsRun(c, actions, states) && i < |actions| && actions[i] == FailFlush
    ensures states[i].phase.Running? && (states[i].phase.v.writer.Building? || states[i].phase.v.writer.FlushStored?)
    ensures var v := states[i].phase.v;
            Fold(states[i + 1].h.shown) == Fold(states[i].h.shown)
            <==> Covered(v.writer.b.table, map[], Contents(states[i].disk.runs, v.runs))
  {
    hide View, Fold, Contents, Covered, CompInv, FlushInv, LockInv, ListInv, BelowInv, FilesInv, SidecarsInv;
    RunInvariant(c, actions, states, i);
    assert Enabled(c, states[i], actions[i]) && states[i + 1] == Do(c, states[i], actions[i]);
    var t := states[i].phase.v.writer.b.table;
    assert t + map[] == t;
    LostLayer(t, map[], Contents(states[i].disk.runs, states[i].phase.v.runs));
  }

  /** The lock has been held since state `i0`, when it was free. */
  predicate HeldSince(states: seq<State>, i0: nat, i: nat)
    requires i < |states|
  {
    && i0 <= i && states[i0].phase.Running? && states[i0].phase.v.writer.Free?
    && forall k :: i0 < k <= i ==> states[k].phase.Running? && !states[k].phase.v.writer.Free?
  }

  /** Whoever holds the lock has committed nothing yet. */
  predicate Uncommitted(w: Writer) {
    w.Free? || w.Started? || w.Logged? || w.Applied? || w.Building? || w.FlushStored?
  }

  /** What has been committed when the lock was taken is what is committed as long
      as its holder has committed nothing. */
  lemma {:induction false} HolderAddsOnly(c: Config, actions: seq<Action>, states: seq<State>, i0: nat, i: nat)
    requires IsRun(c, actions, states) && i < |states| && HeldSince(states, i0, i) && Uncommitted(states[i].phase.v.writer)
    ensures states[i].h.base == states[i0].h.base && states[i0].h.shown <= states[i].h.shown
    decreases i
  {
    hide EnabledIn, DoIn, DoHistory;
    if i > i0 {
      var s, a := states[i - 1], actions[i - 1];
      assert Enabled(c, s, a) && states[i] == Do(c, s, a);
      assert s.phase.Running?;
      HolderStep(c, s.disk, s.phase.v, s.h, a);
      HolderAddsOnly(c, actions, states, i0, i - 1);
    }
  }

  lemma HolderStep(c: Config, d: Disk, v: Session, h: History, a: Action)
    requires EnabledIn(c, d, v, a)
    requires Uncommitted(DoIn(c, d, v, a).1.writer) && !DoIn(c, d, v, a).1.writer.Free?
    ensures Uncommitted(v.writer)
    ensures DoHistory(c, v, h, a).base == h.base && h.shown <= DoHistory(c, v, h, a).shown
  {
    hide Full, Present, Swapped, ApplyAll, BuildOf, SetBuild, DoWriteRunTmp, DoInstallRun, DoWriteSidecarTmp, DoInstallSidecar;
    if OnFiles(a) { BuildUntouched(c, d, v, a); }
  }

  /** What a failed flush, on its own or at the end of a write, does to clients:
      nothing, exactly if when the call took the lock the runs already repeated
      every record of the buffer. */
  lemma FailureHidesExactly(c: Config, actions: seq<Action>, states: seq<State>, i0: nat, i: nat)
    requires c.trigger >= 2 && IsRun(c, actions, states) && i < |actions| && actions[i] == FailFlush && HeldSince(states, i0, i)
    ensures states[i + 1].phase.Running? && states[i + 1].phase.v.writer.Free?
    ensures var before, after := states[i0], states[i + 1];
            SessionView(after.disk, after.phase.v) == SessionView(before.disk, before.phase.v)
            <==> Covered(before.phase.v.mem, map[], Contents(before.disk.runs, before.phase.v.runs))
  {
    hide View, Fold, Contents, Covered, Abs, SessionInv, Enabled, Do;
    FailsInto(c, actions, states, i0, i);
    OpenEngineShowsHistory(c, actions, states, i + 1);
    CommittedAtRest(c, actions, states, i0);
    var before := states[i0];
    var t := before.phase.v.mem;
    assert t + map[] == t;
    LostLayer(t, map[], Contents(before.disk.runs, before.phase.v.runs));
  }

  lemma FailsInto(c: Config, actions: seq<Action>, states: seq<State>, i0: nat, i: nat)
    requires c.trigger >= 2 && IsRun(c, actions, states) && i < |actions| && actions[i] == FailFlush && HeldSince(states, i0, i)
    ensures states[i + 1].phase.Running? && states[i + 1].phase.v.writer.Free?
    ensures Abs(states[i + 1]).ops == Committed(states[i0].h)
  {
    hide View, Fold, Contents, SessionInv;
    assert Enabled(c, states[i], actions[i]) && states[i + 1] == Do(c, states[i], actions[i]);
    HolderAddsOnly(c, actions, states, i0, i);
    CommittedAtRest(c, actions, states, i0);
  }

  /** With the lock free, the runs alone show what is committed. */
  lemma CommittedAtRest(c: Config, actions: seq<Action>, states: seq<State>, i: nat)
    requires c.trigger >= 2 && IsRun(c, actions, states) && i < |states| && states[i].phase.Running? && states[i].phase.v.writer.Free?
    ensures states[i].h.base <= |states[i].h.shown|
    ensures Fold(Committed(states[i].h)) == View(map[], Contents(states[i].disk.runs, states[i].phase.v.runs))
  {
    hide View, Fold, Contents, CompInv, FlushInv, ListInv, BelowInv, FilesInv, SidecarsInv, HistoryInv;
    RunInvariant(c, actions, states, i);
  }
}
