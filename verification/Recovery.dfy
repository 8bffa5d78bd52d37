/** Over every careful run: what recovery, loads and memory give. */
module Recovery {
  import opened Basics
  import opened Armor
  import opened Transactions
  import opened TransactionsInv
  import opened TransactionsProof

  /** Every careful step keeps the invariant. */
  lemma StepInv(s: Sys, step: Step)
    requires Inv(s) && Enabled(s, step) && Careful(s, step)
    ensures Inv(Do(s, step))
  {
    hide Inv, Enabled;
    if s.proc.None? {
      OpenInv(s, step);
    } else if step.SaveCow? || step.SaveCommit? || step.CommitFail? {
      SavingInv(s, s.proc.value, step);
    } else if step.Redo? || step.CleanDel? || step.CleanFail? || step.CleanDone? || step.RemoveWal? || step.SaveEnd? || step.Stop? || step.Open? {
      EndingInv(s, s.proc.value, step);
    } else {
      var p := s.proc.value;
      match step
      case Begin(ok) => StepBegin(s, p, ok);
      case SaveFirstWal(ok) => StepSaveFirstWal(s, p, ok);
      case Create(id, v) => StepCreate(s, p, id, v);
      case Modify(id, v) => StepModify(s, p, id, v);
      case LoadCow(id) => StepLoadCow(s, p, id);
      case Evict(id) => StepEvict(s, p, id);
      case Commit => StepCommit(s, p);
      case GiveUp => StepGiveUp(s, p);
      case SaveWal(ok) => StepSaveWal(s, p, ok);
      case CowsSaved => StepCowsSaved(s, p);
      case RecycleDel(arm) => StepRecycleDel(s, p, arm);
    }
  }

  lemma OpenInv(s: Sys, step: Step)
    requires Inv(s) && Enabled(s, step) && s.proc.None?
    ensures Inv(Do(s, step))
  {
    hide Inv;
    StepOpen(s);
  }

  lemma SavingInv(s: Sys, p: Proc, step: Step)
    requires Inv(s) && Enabled(s, step) && s.proc == Some(p)
    requires step.SaveCow? || step.SaveCommit? || step.CommitFail?
    ensures Inv(Do(s, step))
  {
    hide Inv;
    match step
    case SaveCow(id, outcome) =>
      if outcome.Saved? {
        StepSaveCowGood(s, p, id);
      } else {
        StepSaveCowBad(s, p, id, outcome);
      }
    case SaveCommit(ok) =>
      if ok {
        StepSaveCommit(s, p);
      } else {
        StepCommitFail(s, p);
      }
    case CommitFail => StepCommitFail(s, p);
  }

  lemma StopInv(s: Sys)
    requires Inv(s)
    ensures Inv(s.(proc := None))
  {
    hide DiskOk, ProcOk;
    SameDiskOk(s, s.(proc := None));
  }

  lemma EndingInv(s: Sys, p: Proc, step: Step)
    requires Inv(s) && Enabled(s, step) && s.proc == Some(p)
    requires step.Redo? || step.CleanDel? || step.CleanFail? || step.CleanDone? || step.RemoveWal? || step.SaveEnd? || step.Stop? || step.Open?
    ensures Inv(Do(s, step))
  {
    hide Inv;
    match step
    case Redo => StepRedo(s, p);
    case CleanDel(site) => StepCleanDel(s, p, site);
    case CleanFail(gone) => StepCleanFail(s, p, gone);
    case CleanDone => StepCleanDone(s, p);
    case RemoveWal(arms, ok) => StepRemoveWal(s, p, arms, ok);
    case SaveEnd(ok) => StepSaveEnd(s, p, ok);
    case Stop => StopInv(s);
    case Open =>
  }

  lemma InitInv()
    ensures Inv(Init())
  {
    AllOfNone();
  }

  // ---- the specification: a map, and what a transaction has written so far ----

  datatype Spec = Spec(committed: map<Eid, Inner>, pending: map<Eid, Inner>)

  /** A transaction counts from the queue save of its commit on. */
  function SpecStep(spec: Spec, step: Step): Spec {
    match step
    case Begin(ok) => if ok then spec.(pending := map[]) else spec
    case Create(id, v) => spec.(pending := spec.pending[id := v])
    case Modify(id, v) => spec.(pending := spec.pending[id := v])
    case SaveCommit(ok) => if ok then Spec(spec.committed + spec.pending, map[]) else spec
    case _ => spec
  }

  function SpecRun(spec: Spec, steps: seq<Step>): Spec
    decreases |steps|
  {
    if steps == [] then spec else SpecRun(SpecStep(spec, steps[0]), steps[1..])
  }

  function Values(homes: map<Eid, Home>): map<Eid, Inner> {
    map id | id in homes :: homes[id].inner
  }

  ghost predicate Agrees(s: Sys, spec: Spec) {
    && spec.committed == Values(s.committed)
    && (s.proc.Some? && InTx(s.proc.value.phase) ==> spec.pending == s.proc.value.tx.writes)
  }

  lemma WritesLogged(s: Sys, p: Proc)
    requires ProcOk(s, p) && InTx(p.phase)
    ensures p.tx.writes.Keys == p.tx.entries.Keys
  {
  }

  lemma CommitAgrees(s: Sys, p: Proc, spec: Spec)
    requires ProcOk(s, p) && s.proc == Some(p) && Agrees(s, spec) && p.phase.Committing?
    ensures Agrees(DoSaveCommit(s, p, true), SpecStep(spec, SaveCommit(true)))
  {
    hide ProcOk, Values, CommitHomes, Committed, CompleteCows;
    WritesLogged(s, p);
    CommitValues(s.committed, p.tx);
  }

  lemma CommitValues(committed: map<Eid, Home>, tx: Tx)
    requires tx.writes.Keys == tx.entries.Keys
    ensures Values(CommitHomes(committed, tx)) == Values(committed) + tx.writes
  {
    var l, r := Values(CommitHomes(committed, tx)), Values(committed) + tx.writes;
    assert l.Keys == r.Keys;
    assert forall id :: id in l ==> l[id] == r[id];
  }

  // steps of an open, an abort or a redo commit nothing and start nothing
  lemma EndingAgrees(s: Sys, spec: Spec, step: Step)
    requires Agrees(s, spec) && Enabled(s, step)
    requires s.proc.None? || step.SaveCow? || step.Redo? || step.CleanDel? || step.CleanFail? || step.CleanDone? || step.RemoveWal? || step.SaveEnd? || step.Stop?
    ensures Agrees(Do(s, step), SpecStep(spec, step))
  {
    hide RecoverSet, CleanSet, AllOf, Values, LoadItem;
  }

  lemma StepAgrees(s: Sys, spec: Spec, step: Step)
    requires Inv(s) && Agrees(s, spec) && Enabled(s, step)
    ensures Agrees(Do(s, step), SpecStep(spec, step))
  {
    hide ProcOk, DiskOk, RecoverSet, CleanSet, AllOf, Values, LoadItem;
    if s.proc.None? || step.SaveCow? || step.Redo? || step.CleanDel? || step.CleanFail? || step.CleanDone? || step.RemoveWal? || step.SaveEnd? || step.Stop? {
      EndingAgrees(s, spec, step);
    } else if step == SaveCommit(true) {
      CommitAgrees(s, s.proc.value, spec);
    }
  }

  lemma {:induction false} RunFrom(s: Sys, spec: Spec, steps: seq<Step>)
    requires Inv(s) && Agrees(s, spec) && Legal(s, steps) && CarefulRun(s, steps)
    ensures Inv(Exec(s, steps)) && Agrees(Exec(s, steps), SpecRun(spec, steps))
    decreases |steps|
  {
    hide Inv, Agrees, Enabled, Do, Careful;
    if steps != [] {
      StepInv(s, steps[0]);
      StepAgrees(s, spec, steps[0]);
      RunFrom(Do(s, steps[0]), SpecStep(spec, steps[0]), steps[1..]);
    }
  }

  lemma RunInv(steps: seq<Step>)
    requires Legal(Init(), steps) && CarefulRun(Init(), steps)
    ensures Inv(Exec(Init(), steps)) && Agrees(Exec(Init(), steps), SpecRun(Spec(map[], map[]), steps))
  {
    hide Inv, Legal, Exec, SpecRun, CarefulRun;
    InitInv();
    RunFrom(Init(), Spec(map[], map[]), steps);
  }

  /** What a load of `id` gives, as the specification has it. */
  ghost predicate LoadsAs(disk: Disk, committed: map<Eid, Inner>, id: Eid) {
    var l := LoadItem(disk.Cow(id));
    if id in committed then l.Loaded? && l.value == committed[id] else l == NotFound
  }

  function Recovered(disk: Disk): Disk {
    disk.Delete(RecoverSet(disk))
  }

  lemma RecoveredClean(s: Sys)
    requires DiskOk(s)
    ensures CowsOn(Recovered(s.disk), s.committed, {})
  {
    hide CowsOn;
    SafeRecover(s);
    CowsDelete(s.disk, s.committed, RecoverSet(s.disk), RecoverSet(s.disk));
    assert RecoverSet(s.disk) - RecoverSet(s.disk) == {};
  }

  /** Crash atomicity: stopped after any run of careful steps, recovery makes every
      entity load the value left by the last committed transaction that wrote it,
      and an entity no committed transaction created is not found. */
  lemma CrashAtomicity(steps: seq<Step>, id: Eid)
    requires Legal(Init(), steps) && CarefulRun(Init(), steps)
    ensures LoadsAs(Recovered(Exec(Init(), steps).disk), SpecRun(Spec(map[], map[]), steps).committed, id)
  {
    hide Legal, Exec, SpecRun, CarefulRun;
    RunInv(steps);
    RecoveredLoads(Exec(Init(), steps), SpecRun(Spec(map[], map[]), steps), id);
  }

  lemma RecoveredLoads(s: Sys, spec: Spec, id: Eid)
    requires Inv(s) && Agrees(s, spec)
    ensures LoadsAs(Recovered(s.disk), spec.committed, id)
  {
    hide DiskOk, ProcOk, CowsOn, Recovered;
    RecoveredClean(s);
    CleanLoad(Recovered(s.disk), s.committed, {}, id);
  }

  /** The store gives the committed version, or nothing if there is none. */
  ghost predicate LoadsHome(s: Sys, id: Eid) {
    var l := LoadItem(s.disk.Cow(id));
    if id in s.committed then l.Loaded? && Home(l.arm, l.value) == s.committed[id] else l == NotFound
  }

  // a pending abort has yet to delete what a load would give
  predicate LoadsPending(s: Sys, p: Proc, id: Eid) {
    var l := LoadItem(s.disk.Cow(id));
    l.Loaded? && Site(id, l.arm) in AllOf(p.aborting)
  }

  /** While a process runs, an entity its transaction does not name loads as its
      committed version exactly if what it loads is not for a pending abort to
      delete. */
  lemma LiveLoads(steps: seq<Step>, p: Proc, id: Eid)
    requires Legal(Init(), steps) && CarefulRun(Init(), steps)
    requires Exec(Init(), steps).proc == Some(p) && !IsCold(p.phase) && (InTx(p.phase) ==> id !in p.tx.entries)
    ensures LoadsHome(Exec(Init(), steps), id) <==> !LoadsPending(Exec(Init(), steps), p, id)
    ensures LoadsHome(Exec(Init(), steps), id) ==>
      LoadsAs(Exec(Init(), steps).disk, SpecRun(Spec(map[], map[]), steps).committed, id)
  {
    hide Legal, Exec, SpecRun, CarefulRun;
    RunInv(steps);
    LiveHome(Exec(Init(), steps), p, id);
  }

  lemma LiveHome(s: Sys, p: Proc, id: Eid)
    requires Inv(s) && s.proc == Some(p) && !IsCold(p.phase) && (InTx(p.phase) ==> id !in p.tx.entries)
    ensures LoadsHome(s, id) <==> !LoadsPending(s, p, id)
  {
    hide DiskOk, CowsOn, QueueHeld, AllOf, CleanSet, CowOk, SafeSet;
    var l := LoadItem(s.disk.Cow(id));
    PendingSafe(s, p);
    if LoadsPending(s, p, id) {
      SafeAt(s.committed, AllOf(p.aborting), Site(id, l.arm));
    } else {
      if l.Loaded? && Site(id, l.arm) in Dirt(p) {
        DirtNamed(s, p, Site(id, l.arm));
        LoggedSite(p.tx.entries, Site(id, l.arm));
      }
      CleanLoad(s.disk, s.committed, Dirt(p), id);
    }
  }

  lemma LoggedSite(e: Entries, site: Site)
    ensures site in CleanSet(e) ==> site.id in e
  {
  }

  lemma SafeAt(committed: map<Eid, Home>, sites: set<Site>, site: Site)
    requires SafeSet(committed, sites) && site in sites
    ensures site.id in committed ==> site.arm != committed[site.id].arm
  {
    assert SafeSite(committed, site);
  }

  // no pending abort deletes a committed version
  lemma PendingSafe(s: Sys, p: Proc)
    requires ProcOk(s, p)
    ensures SafeSet(s.committed, AllOf(p.aborting))
  {
    hide CowsOn, QueueHeld, MemOk, SafeEntries, SafeSet, AllOf, EntriesOk;
    SafeAll(s.committed, p.aborting);
  }

  /** In memory, an entity inside the transaction has the transaction's value; any
      other one has its committed value exactly if the transaction that created
      it was committed. */
  lemma MemoryValue(steps: seq<Step>, p: Proc, id: Eid)
    requires Legal(Init(), steps) && CarefulRun(Init(), steps) && Exec(Init(), steps).proc == Some(p) && id in p.cows
    ensures var spec, c := SpecRun(Spec(map[], map[]), steps), p.cows[id];
      && (c.action.Some? ==> InTx(p.phase) && id in spec.pending && NewValue(c) == spec.pending[id])
      && (c.action.None? && id in spec.committed ==> c.inner == spec.committed[id] && c.staged.None?)
      && (c.action == Some(Update) && id in spec.committed ==> c.inner == spec.committed[id])
  {
    hide Legal, Exec, SpecRun, DiskOk, CowsOn, QueueHeld, TxOk, QuietOk, CarefulRun;
    RunInv(steps);
    var s := Exec(Init(), steps);
    assert if InTx(p.phase) then CowOk(s, p.tx, id, p.cows[id]) else Known(s, id, p.cows[id]);
  }
}
