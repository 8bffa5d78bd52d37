/** Runs in which a pending abort or a careless load does harm: care is exactly what it takes. */
module FailingRuns {
  import opened Basics
  import opened Armor
  import opened Transactions
  import opened TransactionsInv
  import opened TransactionsProof
  import opened Recovery
  import opened Reentrancy

  lemma {:induction false} SpecConcat(spec: Spec, first: seq<Step>, second: seq<Step>)
    ensures SpecRun(spec, first + second) == SpecRun(SpecRun(spec, first), second)
    decreases |first|
  {
    if first == [] {
      assert first + second == second;
    } else {
      SpecConcat(SpecStep(spec, first[0]), first[1..], second);
      assert (first + second)[1..] == first[1..] + second;
    }
  }

  lemma {:induction false} CarefulConcat(s: Sys, first: seq<Step>, second: seq<Step>)
    requires Legal(s, first) && Legal(Exec(s, first), second) && Legal(s, first + second)
    ensures CarefulRun(s, first + second) <==> CarefulRun(s, first) && CarefulRun(Exec(s, first), second)
    decreases |first|
  {
    hide Enabled, Do, Careful;
    if first == [] {
      assert first + second == second;
    } else {
      assert (first + second)[1..] == first[1..] + second;
      CarefulConcat(Do(s, first[0]), first[1..], second);
    }
  }

  /** A run under construction, where it has got to, and what it has committed. */
  ghost predicate Reaches(base: Sys, spec: Spec, steps: seq<Step>, s: Sys, spec': Spec) {
    Legal(base, steps) && CarefulRun(base, steps) && Exec(base, steps) == s && SpecRun(spec, steps) == spec'
  }

  lemma Start(base: Sys, spec: Spec)
    ensures Reaches(base, spec, [], base, spec)
  {
  }

  lemma OneStep(s: Sys, spec: Spec, step: Step)
    requires Enabled(s, step)
    ensures Legal(s, [step]) && Exec(s, [step]) == Do(s, step) && SpecRun(spec, [step]) == SpecStep(spec, step)
    ensures CarefulRun(s, [step]) <==> Careful(s, step)
  {
    hide Do, Enabled, Careful, SpecStep;
    var s', spec' := Do(s, step), SpecStep(spec, step);
    assert [step][1..] == [] && Legal(s', []) && Exec(s', []) == s' && SpecRun(spec', []) == spec' && CarefulRun(s', []);
  }

  lemma Extend(base: Sys, spec: Spec, steps: seq<Step>, s: Sys, spec': Spec, step: Step)
    requires Reaches(base, spec, steps, s, spec') && Enabled(s, step) && Careful(s, step)
    ensures Reaches(base, spec, steps + [step], Do(s, step), SpecStep(spec', step))
  {
    hide Do, Enabled, Careful, SpecStep, Exec, Legal, SpecRun, CarefulRun;
    OneStep(s, spec', step);
    ExecConcat(base, steps, [step]);
    CarefulConcat(base, steps, [step]);
    SpecConcat(spec, steps, [step]);
  }

  function NoSpec(): Spec { Spec(map[], map[]) }

  // ---- one transaction over one entity ----

  // a transaction has just begun
  function Begun(s: Sys, p: Proc): Sys {
    var t := p.wmark + 1;
    var q := Queue(t, p.queue.done, {t});
    s.(disk := s.disk.(walq := s.disk.walq.Put(p.qArm.Other(), Stored(p.qSeqNo + 1, q)),
                       wals := s.disk.wals[t := Arms(Absent, Stored(1, map[]))]),
       proc := Some(p.(wmark := t, qSeqNo := p.qSeqNo + 1, qArm := p.qArm.Other(), queue := q, phase := Running,
                       tx := Tx(t, map[], 1, Right, map[]))))
  }

  predicate Ready(s: Sys, p: Proc) {
    && s.proc == Some(p) && p.phase.Idle? && p.aborting == map[] && p.queue.doing == {}
    && s.disk.Wal(p.wmark + 1) == Arms(Absent, Absent)
  }

  lemma BeginOne(base: Sys, spec: Spec, steps0: seq<Step>, s0: Sys, spec0: Spec, p: Proc) returns (steps: seq<Step>, spec': Spec)
    requires Reaches(base, spec, steps0, s0, spec0) && Ready(s0, p)
    ensures Reaches(base, spec, steps, Begun(s0, p), spec') && spec' == Spec(spec0.committed, map[])
  {
    hide Reaches, LoadItem;
    assert {} + {p.wmark + 1} == {p.wmark + 1};
    Extend(base, spec, steps0, s0, spec0, Begin(true));
    var s1, spec1 := Do(s0, Begin(true)), SpecStep(spec0, Begin(true));
    Extend(base, spec, steps0 + [Begin(true)], s1, spec1, SaveFirstWal(true));
    steps, spec' := steps0 + [Begin(true)] + [SaveFirstWal(true)], SpecStep(spec1, SaveFirstWal(true));
    assert Do(s1, SaveFirstWal(true)) == Begun(s0, p);
  }

  // the version a transaction is about to save
  function Saving(c: Cow, id: Eid, t: Txid, v: Inner): Tx {
    var entry := if c.action == Some(New) then Entry(New, c.arm) else Entry(Update, c.arm.Other());
    Tx(t, map[id := entry], 2, Left, map[id := v])
  }

  // one entity is written and its log saved
  function Logged(s: Sys, p: Proc, id: Eid, c: Cow, v: Inner): Sys {
    var tx := Saving(c, id, p.tx.id, v);
    s.(disk := s.disk.(wals := s.disk.wals[p.tx.id := Arms(Stored(2, tx.entries), Stored(1, map[]))]),
       born := if c.action == Some(New) then s.born + {id} else s.born,
       proc := Some(p.(cows := p.cows[id := c], tx := tx, phase := SavingCows({id}))))
  }

  // what is in memory after writing `v`
  function Written(p: Proc, id: Eid, v: Inner): Cow {
    if id in p.cows then p.cows[id].(staged := Some(v), action := Some(Update)) else Cow(0, Right, v, None, Some(New))
  }

  lemma LogOne(base: Sys, spec: Spec, steps0: seq<Step>, s0: Sys, spec0: Spec, p: Proc, id: Eid, v: Inner)
    returns (steps: seq<Step>, spec': Spec)
    requires Reaches(base, spec, steps0, s0, spec0) && s0.proc == Some(p) && p.phase.Running?
    requires p.tx.entries == map[] && p.tx.writes == map[] && p.tx.seqNo == 1 && p.tx.arm == Right
    requires s0.disk.Wal(p.tx.id) == Arms(Absent, Stored(1, map[]))
    requires if id in p.cows then p.cows[id].action.None? else id !in s0.born
    ensures Reaches(base, spec, steps, Logged(s0, p, id, Written(p, id, v), v), spec')
    ensures spec' == Spec(spec0.committed, spec0.pending[id := v])
  {
    hide Reaches, LoadItem;
    var step := if id in p.cows then Modify(id, v) else Create(id, v);
    Extend(base, spec, steps0, s0, spec0, step);
    var s1, spec1 := Do(s0, step), SpecStep(spec0, step);
    Extend(base, spec, steps0 + [step], s1, spec1, Commit);
    var s2, spec2 := Do(s1, Commit), SpecStep(spec1, Commit);
    Extend(base, spec, steps0 + [step] + [Commit], s2, spec2, SaveWal(true));
    steps, spec' := steps0 + [step] + [Commit] + [SaveWal(true)], SpecStep(spec2, SaveWal(true));
    var c := Written(p, id, v);
    assert map[id := v] == map[][id := v];
    assert Saving(c, id, p.tx.id, v).entries.Keys == {id};
    assert Do(s2, SaveWal(true)) == Logged(s0, p, id, c, v);
  }

  /** From an idle process: a transaction that writes one entity and has saved it,
      but not yet the queue. */
  lemma SaveOne(base: Sys, spec: Spec, steps0: seq<Step>, s0: Sys, spec0: Spec, p: Proc, id: Eid, v: Inner)
    returns (steps: seq<Step>, s: Sys, spec': Spec)
    requires Reaches(base, spec, steps0, s0, spec0) && Ready(s0, p)
    requires if id in p.cows then p.cows[id].action.None? else id !in s0.born
    ensures Reaches(base, spec, steps, s, spec') && spec' == Spec(spec0.committed, map[id := v])
    ensures var c := Written(p, id, v); var b := Begun(s0, p); var l := Logged(b, b.proc.value, id, c, v);
      s == l.(disk := l.disk.PutCow(id, Target(c), Stored(c.seqNo + 1, v)),
              proc := Some(l.proc.value.(cows := p.cows[id := c.(seqNo := c.seqNo + 1)], phase := SavingCows({}))))
  {
    hide Reaches, LoadItem;
    steps, spec' := BeginOne(base, spec, steps0, s0, spec0, p);
    var b := Begun(s0, p);
    steps, spec' := LogOne(base, spec, steps, b, spec', b.proc.value, id, v);
    var l := Logged(b, b.proc.value, id, Written(p, id, v), v);
    Extend(base, spec, steps, l, spec', SaveCow(id, Saved));
    steps, s, spec' := steps + [SaveCow(id, Saved)], Do(l, SaveCow(id, Saved)), SpecStep(spec', SaveCow(id, Saved));
    assert map[][id := v] == map[id := v];
    assert {id} - {id} == {};
    var c := Written(p, id, v);
    assert p.cows[id := c][id := c.(seqNo := c.seqNo + 1)] == p.cows[id := c.(seqNo := c.seqNo + 1)];
    assert NewValue(c) == v;
  }

  // ---- a careless load ----

  // what has been saved would be deleted by a recovery
  lemma SavedRecovers(s0: Sys, p: Proc, id: Eid, v: Inner, disk: Disk)
    requires QueueInv(s0) && Ready(s0, p)
    requires var c := Written(p, id, v); var b := Begun(s0, p); var l := Logged(b, b.proc.value, id, c, v);
      disk.walq == l.disk.walq && disk.wals == l.disk.wals
    ensures RecoverSet(disk) == CleanSet(Saving(Written(p, id, v), id, p.wmark + 1, v).entries)
  {
    var t, q := p.wmark + 1, Queue(p.wmark + 1, p.queue.done, {p.wmark + 1});
    SavedSame(s0, p);
    QueuePut(s0, p, q);
    assert disk.SavedQueue() == q;
    assert disk.SavedWal(t) == Saving(Written(p, id, v), id, t, v).entries;
    RecoverOne(disk, t);
  }

  // an idle process with an entity in memory whose other arm is its committed one
  ghost predicate Misplaced(s: Sys, p: Proc, id: Eid) {
    && id in p.cows && p.cows[id].action.None? && id in s.committed
    && p.cows[id].arm == s.committed[id].arm.Other() && s.disk.Cow(id).Get(p.cows[id].arm).Absent?
  }

  /** Updating such an entity and stopping before the commit loses its committed
      value. */
  lemma MisplacedLoses(base: Sys, spec: Spec, steps0: seq<Step>, s0: Sys, spec0: Spec, p: Proc, id: Eid, v: Inner)
    returns (steps: seq<Step>, s: Sys)
    requires Reaches(base, spec, steps0, s0, spec0) && Ready(s0, p) && QueueInv(s0) && Misplaced(s0, p, id)
    ensures Reaches(base, spec, steps, s, Spec(spec0.committed, map[id := v]))
    ensures LoadItem(Recovered(s.disk).Cow(id)) == NotFound
  {
    hide Reaches, RecoverSet, QueueInv;
    var spec';
    steps, s, spec' := SaveOne(base, spec, steps0, s0, spec0, p, id, v);
    SavedRecovers(s0, p, id, v, s.disk);
    assert Site(id, s0.committed[id].arm) in RecoverSet(s.disk);
  }

  lemma ExtendAll(base: Sys, spec: Spec, steps0: seq<Step>, s0: Sys, spec0: Spec, more: seq<Step>, spec': Spec)
    requires Reaches(base, spec, steps0, s0, spec0) && Legal(s0, more) && CarefulRun(s0, more) && SpecRun(spec0, more) == spec'
    ensures Reaches(base, spec, steps0 + more, Exec(s0, more), spec')
  {
    hide Enabled, Do, Careful, SpecStep;
    ExecConcat(base, steps0, more);
    CarefulConcat(base, steps0, more);
    SpecConcat(spec, steps0, more);
  }

  lemma {:induction false} CleaningOnly(s: Sys, spec: Spec, steps: seq<Step>)
    requires Legal(s, steps) && forall i :: 0 <= i < |steps| ==> steps[i].CleanDel?
    ensures CarefulRun(s, steps) && SpecRun(spec, steps) == spec
    decreases |steps|
  {
    hide Enabled, Do;
    if steps != [] {
      CleaningOnly(Do(s, steps[0]), spec, steps[1..]);
    }
  }

  /** A pending abort redone: nothing in memory changes, and what was pending is gone. */
  lemma RedoAll(base: Sys, spec: Spec, steps0: seq<Step>, s0: Sys, spec0: Spec, p: Proc) returns (steps: seq<Step>, s: Sys)
    requires Reaches(base, spec, steps0, s0, spec0) && s0.proc == Some(p) && p.phase.Idle? && p.aborting != map[]
    requires QueueInv(s0)
    ensures Reaches(base, spec, steps, s, spec0) && QueueInv(s) && s.proc.Some?
    ensures s.disk.wals == s0.disk.wals && s.committed == s0.committed && SameCows(s0.disk.Delete(AllOf(p.aborting)), s.disk)
    ensures var p' := s.proc.value;
      p'.phase.Idle? && p'.aborting == map[] && p'.queue.doing == {} && p'.cows == p.cows && p'.wmark == p.wmark
  {
    hide Reaches, QueueInv, AllOf, SameCows, LoadItem, Exec, Legal, CarefulRun;
    ProcQueueOf(s0, p);
    Extend(base, spec, steps0, s0, spec0, Redo);
    var s1 := Do(s0, Redo);
    var clean := CleanAll(s1, s1.proc.value);
    CleaningOnly(s1, spec0, clean);
    ExtendAll(base, spec, steps0 + [Redo], s1, spec0, clean, spec0);
    var s2 := Exec(s1, clean);
    steps := steps0 + [Redo] + clean;
    Extend(base, spec, steps, s2, spec0, CleanDone);
    var s3 := Do(s2, CleanDone);
    Extend(base, spec, steps + [CleanDone], s3, spec0, SaveEnd(true));
    steps, s := steps + [CleanDone] + [SaveEnd(true)], Do(s3, SaveEnd(true));
    StepQueue(s0, Redo);
    RunQueueFrom(s1, clean);
    StepQueue(s2, CleanDone);
    StepQueue(s3, SaveEnd(true));
    assert p.aborting - p.aborting.Keys == map[];
    assert p.queue.doing - p.aborting.Keys == {};
    SameCowsOf(s0.disk.Delete(AllOf(p.aborting)), s2.disk, s.disk);
  }

  lemma SameCowsOf(d: Disk, d': Disk, d'': Disk)
    requires SameCows(d, d') && d''.cows == d'.cows
    ensures SameCows(d, d'')
  {
  }

  lemma ProcQueueOf(s: Sys, p: Proc)
    requires QueueInv(s) && s.proc == Some(p) && p.phase.Idle?
    ensures p.aborting.Keys == p.queue.doing
  {
  }

  // a careless load happens while an abort is pending, of a version the abort deletes
  lemma CarelessPhase(s: Sys, p: Proc, id: Eid)
    requires Inv(s) && s.proc == Some(p) && Enabled(s, LoadCow(id)) && !Careful(s, LoadCow(id))
    ensures p.phase.Idle? || p.phase.Cleaning?
    ensures id in s.committed && p.aborting != map[] && LoadItem(s.disk.Cow(id)).arm == s.committed[id].arm.Other()
    ensures Site(id, LoadItem(s.disk.Cow(id)).arm) in AllOf(p.aborting)
  {
    hide DiskOk, CowsOn, QueueHeld, AllOf, CleanSet, CowOk, SafeSet, MemOk, SafeEntries, EntriesOk;
    var l := LoadItem(s.disk.Cow(id));
    AllOfNone();
    PendingSafe(s, p);
    SafeAt(s.committed, AllOf(p.aborting), Site(id, l.arm));
    if !p.phase.Idle? && !p.phase.Cleaning? {
      CleanLoad(s.disk, s.committed, {}, id);
    }
  }

  lemma FutureWal(s: Sys, p: Proc)
    requires Inv(s) && s.proc == Some(p)
    ensures s.disk.Wal(p.wmark + 1) == Arms(Absent, Absent)
  {
    hide CowsOn, QueueOk, MemOk, TxOk, QuietOk, Holds, Readable, QueueHeld;
    QueueIsSaved(s, p);
  }

  // after a careless load, the process can get back to idle with the abort pending
  lemma ToIdle(s: Sys, spec: Spec, p: Proc) returns (steps: seq<Step>, s': Sys)
    requires s.proc == Some(p) && !IsCold(p.phase) && (p.phase.Idle? || p.phase.Cleaning?)
    ensures Reaches(s, spec, steps, s', spec) && s'.disk.wals == s.disk.wals && s'.committed == s.committed
    ensures SameCows(s.disk, s'.disk) && s'.proc.Some?
    ensures s'.proc.value.phase.Idle? && s'.proc.value.cows == p.cows && s'.proc.value.aborting == p.aborting && s'.proc.value.wmark == p.wmark
    ensures QueueInv(s) ==> QueueInv(s')
  {
    hide Reaches, QueueInv, LoadItem;
    Start(s, spec);
    if p.phase.Idle? {
      steps, s' := [], s;
    } else {
      Extend(s, spec, [], s, spec, CleanFail({}));
      steps, s' := [] + [CleanFail({})], Do(s, CleanFail({}));
      DeleteNone(s.disk);
      if QueueInv(s) {
        StepQueue(s, CleanFail({}));
      }
    }
  }

  lemma Misplaces(s: Sys, s': Sys, p: Proc, p': Proc, id: Eid, arm: Arm, wals: map<Txid, Entries>)
    requires SameCows(s.disk.Delete(AllOf(wals)), s'.disk) && Site(id, arm) in AllOf(wals)
    requires p'.cows == p.cows && id in p.cows && p.cows[id].action.None? && p.cows[id].arm == arm
    requires s'.committed == s.committed && id in s.committed && arm == s.committed[id].arm.Other()
    ensures Misplaced(s', p', id)
  {
    hide AllOf;
    assert s'.disk.Cow(id) == s.disk.Delete(AllOf(wals)).Cow(id);
  }

  /** A careless load can lose what was committed: redo the abort, update the
      entity, and stop before the queue save. */
  lemma CarelessLoadLoses(s: Sys, spec: Spec, p: Proc, id: Eid, v: Inner) returns (more: seq<Step>)
    requires Inv(s) && QueueInv(s) && Agrees(s, spec) && s.proc == Some(p)
    requires Enabled(s, LoadCow(id)) && !Careful(s, LoadCow(id))
    ensures var s' := Do(s, LoadCow(id));
      && Legal(s', more) && CarefulRun(s', more)
      && !LoadsAs(Recovered(Exec(s', more).disk), SpecRun(spec, more).committed, id)
  {
    hide Inv, QueueInv, Reaches, AllOf, SameCows, Recovered, LoadItem;
    CarelessPhase(s, p, id);
    FutureWal(s, p);
    var l := LoadItem(s.disk.Cow(id));
    var s1 := Do(s, LoadCow(id));
    StepQueue(s, LoadCow(id));
    var s2;
    more, s2 := ToIdle(s1, spec, s1.proc.value);
    var p2, s3 := s2.proc.value, s2;
    more, s3 := RedoAll(s1, spec, more, s2, spec, p2);
    SameMoved(s1.disk, s2.disk, AllOf(p.aborting), s3.disk);
    Misplaces(s1, s3, s1.proc.value, s3.proc.value, id, l.arm, p.aborting);
    var s4;
    more, s4 := MisplacedLoses(s1, spec, more, s3, spec, s3.proc.value, id, v);
    Lost(s1, spec, more, s4, Spec(spec.committed, map[id := v]), id);
  }

  lemma SameMoved(d: Disk, d': Disk, gone: set<Site>, d'': Disk)
    requires SameCows(d, d') && SameCows(d'.Delete(gone), d'')
    ensures SameCows(d.Delete(gone), d'')
  {
    forall id ensures d''.Cow(id) == d.Delete(gone).Cow(id) {
      assert d'.Cow(id) == d.Cow(id) && d''.Cow(id) == d'.Delete(gone).Cow(id);
    }
  }

  lemma Lost(base: Sys, spec: Spec, steps: seq<Step>, s: Sys, spec': Spec, id: Eid)
    requires Reaches(base, spec, steps, s, spec') && id in spec'.committed && LoadItem(Recovered(s.disk).Cow(id)) == NotFound
    ensures Legal(base, steps) && CarefulRun(base, steps)
    ensures !LoadsAs(Recovered(Exec(base, steps).disk), SpecRun(spec, steps).committed, id)
  {
  }

  /** Whatever careful steps follow, recovery gives the committed values. */
  ghost predicate AlwaysRecovers(s: Sys, spec: Spec) {
    forall more: seq<Step>, id :: Legal(s, more) && CarefulRun(s, more) ==>
      LoadsAs(Recovered(Exec(s, more).disk), SpecRun(spec, more).committed, id)
  }

  /** Care is exactly what it takes: after a careful run, a load keeps crash atomicity
      for all that follows if and only if it is careful. */
  lemma CareIsNeeded(steps: seq<Step>, id: Eid, v: Inner)
    requires Legal(Init(), steps) && CarefulRun(Init(), steps)
    requires Exec(Init(), steps).proc.Some? && Enabled(Exec(Init(), steps), LoadCow(id))
    ensures var s, spec := Exec(Init(), steps), SpecRun(NoSpec(), steps);
      Careful(s, LoadCow(id)) <==> AlwaysRecovers(Do(s, LoadCow(id)), spec)
  {
    hide Legal, Exec, SpecRun, CarefulRun, Inv, QueueInv, Agrees, Do, Careful, Enabled, LoadsAs, Recovered;
    RunInv(steps);
    RunQueue(steps);
    var s, spec := Exec(Init(), steps), SpecRun(NoSpec(), steps);
    var s' := Do(s, LoadCow(id));
    if Careful(s, LoadCow(id)) {
      StepInv(s, LoadCow(id));
      StepAgrees(s, spec, LoadCow(id));
      forall more: seq<Step>, e | Legal(s', more) && CarefulRun(s', more)
        ensures LoadsAs(Recovered(Exec(s', more).disk), SpecRun(spec, more).committed, e)
      {
        RunFrom(s', spec, more);
        RecoveredLoads(Exec(s', more), SpecRun(spec, more), e);
      }
    } else {
      var more := CarelessLoadLoses(s, spec, s.proc.value, id, v);
    }
  }

  // ---- concrete runs ----

  lemma StartRun()
    ensures Reaches(Init(), NoSpec(), [], Init(), NoSpec()) && Ready(Init(), Init().proc.value) && QueueInv(Init())
  {
    Start(Init(), NoSpec());
    AllOfNone();
  }

  // a transaction that saved one entity goes on to its queue save
  lemma EndSave(base: Sys, spec: Spec, steps0: seq<Step>, s0: Sys, spec0: Spec, ok: bool) returns (steps: seq<Step>, s: Sys, spec': Spec)
    requires Reaches(base, spec, steps0, s0, spec0) && s0.proc.Some? && s0.proc.value.phase == SavingCows({})
    requires |s0.proc.value.queue.done| < COMMITTED_QUEUE_SIZE
    ensures Reaches(base, spec, steps, s, spec') && s == DoSaveCommit(s0, s0.proc.value.(phase := Committing), ok)
    ensures spec' == if ok then Spec(spec0.committed + spec0.pending, map[]) else spec0
  {
    hide Reaches, LoadItem;
    Extend(base, spec, steps0, s0, spec0, CowsSaved);
    var s1 := Do(s0, CowsSaved);
    Extend(base, spec, steps0 + [CowsSaved], s1, spec0, SaveCommit(ok));
    steps, s, spec' := steps0 + [CowsSaved] + [SaveCommit(ok)], Do(s1, SaveCommit(ok)), SpecStep(spec0, SaveCommit(ok));
  }

  // an entity with value `u` is created and committed
  lemma CommitOne(id: Eid, u: Inner) returns (steps: seq<Step>, s: Sys, spec: Spec)
    ensures Reaches(Init(), NoSpec(), steps, s, spec) && spec.committed == map[id := u]
    ensures s.proc.Some? && Ready(s, s.proc.value) && s.committed == map[id := Home(Right, u)]
    ensures s.proc.value.cows == map[id := Cow(1, Right, u, None, None)] && s.proc.value.wmark == 1
    ensures s.proc.value.queue.done == [1]
    ensures s.disk.cows == map[id := Arms(Absent, Stored(1, u))]
  {
    hide Reaches, LoadItem, QueueInv;
    StartRun();
    steps, s, spec := SaveOne(Init(), NoSpec(), [], Init(), NoSpec(), Init().proc.value, id, u);
    steps, s, spec := EndSave(Init(), NoSpec(), steps, s, spec, true);
    assert s.committed == map[id := Home(Right, u)];
    assert s.proc.value.cows == map[id := Cow(1, Right, u, None, None)];
    assert map[] + map[id := u] == map[id := u];
    assert {1} - {1} == {};
  }

  // an abort fails right away
  lemma GiveUpCleaning(base: Sys, spec: Spec, steps0: seq<Step>, s0: Sys, spec0: Spec) returns (steps: seq<Step>, s: Sys)
    requires Reaches(base, spec, steps0, s0, spec0) && s0.proc.Some?
    requires s0.proc.value.phase.Cleaning? && !s0.proc.value.phase.mode.ColdRedo?
    ensures Reaches(base, spec, steps, s, spec0) && SameCows(s0.disk, s.disk) && s.committed == s0.committed
    ensures s.proc == Some(s0.proc.value.(phase := Idle, tx := NoTx()))
  {
    hide Reaches, LoadItem;
    Extend(base, spec, steps0, s0, spec0, CleanFail({}));
    steps, s := steps0 + [CleanFail({})], Do(s0, CleanFail({}));
    DeleteNone(s0.disk);
  }

  /** A committed entity is updated, saved, and the commit fails; the abort fails too,
      and the entity leaves memory. Loading it then is careless. */
  lemma PendingUpdate(id: Eid, u: Inner, v: Inner) returns (steps: seq<Step>, s: Sys, spec: Spec)
    ensures Reaches(Init(), NoSpec(), steps, s, spec) && spec.committed == map[id := u]
    ensures LoadItem(s.disk.Cow(id)) == Loaded(Left, 2, v)
    ensures s.proc.Some? && Enabled(s, LoadCow(id)) && !Careful(s, LoadCow(id))
  {
    hide Reaches;
    steps, s, spec := CommitOne(id, u);
    steps, s, spec := SaveOne(Init(), NoSpec(), steps, s, spec, s.proc.value, id, v);
    var e := s.proc.value.tx.entries;
    assert s.disk.Cow(id) == Arms(Stored(2, v), Stored(1, u));
    steps, s, spec := EndSave(Init(), NoSpec(), steps, s, spec, false);
    assert 2 in s.proc.value.aborting && s.proc.value.aborting[2] == e;
    steps, s := GiveUpCleaning(Init(), NoSpec(), steps, s, spec);
    Extend(Init(), NoSpec(), steps, s, spec, Evict(id));
    steps, s := steps + [Evict(id)], Do(s, Evict(id));
    assert Site(id, Left) in CleanSet(e);
  }

  /** A run with one careless load, after which recovery does not find an entity that
      was committed. */
  lemma CommittedValueLost(id: Eid, u: Inner, v: Inner) returns (steps: seq<Step>)
    ensures Legal(Init(), steps) && id in SpecRun(NoSpec(), steps).committed
    ensures !LoadsAs(Recovered(Exec(Init(), steps).disk), SpecRun(NoSpec(), steps).committed, id)
  {
    hide LoadItem, Inv, QueueInv, Agrees, Enabled, Do, Careful, LoadsAs, Recovered;
    var s, spec;
    steps, s, spec := PendingUpdate(id, u, v);
    RunInv(steps);
    RunQueue(steps);
    var more := CarelessLoadLoses(s, spec, s.proc.value, id, v);
    var s' := Do(s, LoadCow(id));
    OneStep(s, spec, LoadCow(id));
    SpecOfLoad(spec, id);
    ExecConcat(s, [LoadCow(id)], more);
    SpecConcat(spec, [LoadCow(id)], more);
    ExecConcat(Init(), steps, [LoadCow(id)] + more);
    SpecConcat(NoSpec(), steps, [LoadCow(id)] + more);
    SpecKeeps(spec, [LoadCow(id)] + more, id);
    steps := steps + ([LoadCow(id)] + more);
  }

  lemma SpecOfLoad(spec: Spec, id: Eid)
    ensures SpecStep(spec, LoadCow(id)) == spec
  {
  }

  lemma {:induction false} SpecKeeps(spec: Spec, steps: seq<Step>, id: Eid)
    requires id in spec.committed
    ensures id in SpecRun(spec, steps).committed
    decreases |steps|
  {
    if steps != [] {
      SpecKeeps(SpecStep(spec, steps[0]), steps[1..], id);
    }
  }

  /** A careful run after which the store shows an entity no transaction committed:
      why loads tell the truth only outside pending aborts. */
  lemma PendingAbortShows(id: Eid, v: Inner) returns (steps: seq<Step>)
    ensures Legal(Init(), steps) && CarefulRun(Init(), steps) && Exec(Init(), steps).proc.Some?
    ensures var s := Exec(Init(), steps);
      s.proc.value.phase.Idle? && !LoadsAs(s.disk, SpecRun(NoSpec(), steps).committed, id)
  {
    hide LoadItem, Exec, Legal, SpecRun, CarefulRun;
    StartRun();
    var s, spec;
    steps, s, spec := SaveOne(Init(), NoSpec(), [], Init(), NoSpec(), Init().proc.value, id, v);
    assert s.disk.Cow(id) == Arms(Absent, Stored(1, v));
    steps, s, spec := EndSave(Init(), NoSpec(), steps, s, spec, false);
    steps, s := GiveUpCleaning(Init(), NoSpec(), steps, s, spec);
    OneArm(s.disk.Cow(id), v);
  }

  lemma OneArm(a: Arms<Inner>, v: Inner)
    requires a == Arms(Absent, Stored(1, v))
    ensures LoadItem(a).Loaded?
  {
  }

  /** A careful run after which memory shows a value no transaction committed: an
      entity outlives in memory the aborted transaction that created it. */
  lemma AbortedInMemory(id: Eid, v: Inner) returns (steps: seq<Step>, p: Proc)
    ensures Legal(Init(), steps) && CarefulRun(Init(), steps) && Exec(Init(), steps).proc == Some(p)
    ensures p.phase.Idle? && id in p.cows && p.cows[id].action.None? && p.cows[id].inner == v
    ensures id !in SpecRun(NoSpec(), steps).committed
  {
    hide LoadItem, Exec, Legal, SpecRun, CarefulRun;
    StartRun();
    var s, spec;
    steps, s, spec := SaveOne(Init(), NoSpec(), [], Init(), NoSpec(), Init().proc.value, id, v);
    steps, s, spec := EndSave(Init(), NoSpec(), steps, s, spec, false);
    steps, s := GiveUpCleaning(Init(), NoSpec(), steps, s, spec);
    p := s.proc.value;
  }
}
