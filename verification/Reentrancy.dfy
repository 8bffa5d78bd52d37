/** The queue over every run, careful or not, and recoveries that are interrupted. */
module Reentrancy {
  import opened Basics
  import opened Armor
  import opened Transactions
  import opened TransactionsInv
  import opened TransactionsProof
  import opened Recovery

  /** What the queue keeps, whatever is loaded: the one in memory is the one saved, and
      pending aborts are what is doing. */
  ghost predicate QueueInv(s: Sys) {
    && Readable(s.disk.walq) && QueueOk(s.disk.SavedQueue())
    && (s.proc.Some? ==> ProcQueue(s, s.proc.value))
  }

  ghost predicate ProcQueue(s: Sys, p: Proc) {
    && QueueHeld(s, p) && p.queue.wmark <= p.wmark
    && if InTx(p.phase) then p.aborting == map[] && p.queue.doing == {p.tx.id}
       else
         && p.aborting.Keys == (if IsCold(p.phase) then {} else p.queue.doing)
         && (IsAbort(p.phase) ==> p.aborting.Keys == {p.tx.id})
  }

  // a queue save that works
  lemma QueueSaved(s: Sys, p: Proc, q: Queue, s': Sys)
    requires QueueInv(s) && s.proc == Some(p) && QueueOk(q) && s'.disk == WithQueue(s, p, q).0
    ensures Readable(s'.disk.walq) && s'.disk.SavedQueue() == q
    ensures Holds(Item(p.qSeqNo + 1, p.qArm.Other(), s'.disk.walq), Some(q))
  {
    hide QueueOk, Holds, QueueHeld, Readable;
    QueuePut(s, p, q);
  }

  lemma SavedSame(s: Sys, p: Proc)
    requires QueueInv(s) && s.proc == Some(p)
    ensures s.disk.SavedQueue() == p.queue && QueueOk(p.queue)
  {
    hide QueueOk, QueueHeld, Readable;
    QueueIsSaved(s, p);
  }

  lemma QueueGrows(q: Queue, t: Txid)
    requires QueueOk(q) && q.doing == {} && t > q.wmark
    ensures QueueOk(Queue(t, q.done, {t}))
  {
  }

  lemma QueueCleared(q: Queue, wmark: Txid)
    requires QueueOk(q) && wmark >= q.wmark
    ensures QueueOk(Queue(wmark, q.done, {}))
  {
  }

  lemma BeginQueue(s: Sys, p: Proc, ok: bool)
    requires QueueInv(s) && s.proc == Some(p) && Enabled(s, Begin(ok))
    ensures QueueInv(DoBegin(s, p, ok))
  {
    hide Holds, Readable, QueueOk, QueueHeld;
    SavedSame(s, p);
    var s' := DoBegin(s, p, ok);
    if ok {
      var t := p.wmark + 1;
      assert p.queue.doing + {t} == {t};
      QueueGrows(p.queue, t);
      QueueSaved(s, p, Queue(t, p.queue.done, {t}), s');
      HeldAfterSave(s', s'.proc.value);
    } else {
      SameQueue(s, p, s', s'.proc.value);
    }
  }

  lemma CommitQueue(s: Sys, p: Proc)
    requires QueueInv(s) && s.proc == Some(p) && p.phase.Committing?
    ensures QueueInv(DoSaveCommit(s, p, true))
  {
    hide Holds, Readable, CompleteCows, CommitHomes;
    SavedSame(s, p);
    RetireShort(p.queue.done);
    QueueSaved(s, p, Committed(p.queue, p.wmark, p.tx.id), DoSaveCommit(s, p, true));
  }

  // the end of an abort or a redo forgets all that is doing
  lemma AllEnded(s: Sys, p: Proc)
    requires ProcQueue(s, p) && p.phase.Ending?
    ensures Ended(p, p.phase.mode) == p.queue.doing
    ensures p.aborting - Ended(p, p.phase.mode) == map[]
  {
    hide QueueHeld;
  }

  lemma EndQueue(s: Sys, p: Proc, ok: bool)
    requires QueueInv(s) && s.proc == Some(p) && p.phase.Ending?
    ensures QueueInv(DoSaveEnd(s, p, ok))
  {
    hide Holds, Readable, QueueOk, Ended;
    SavedSame(s, p);
    if ok {
      AllEnded(s, p);
      assert p.queue.doing - p.queue.doing == {};
      QueueCleared(p.queue, p.wmark);
      QueueSaved(s, p, Queue(p.wmark, p.queue.done, {}), DoSaveEnd(s, p, ok));
    }
  }

  lemma AbortQueue(s: Sys, p: Proc, p': Proc, s': Sys)
    requires QueueInv(s) && s.proc == Some(p) && InTx(p.phase) && s'.disk.walq == s.disk.walq
    requires p'.tx == p.tx && p'.queue == p.queue && p'.qSeqNo == p.qSeqNo && p'.qArm == p.qArm
    requires p'.wmark == p.wmark && p'.aborting == p.aborting && s'.proc == Some(StartAbort(p'))
    ensures QueueInv(s')
  {
    hide Holds, Readable, QueueOk, AbortCows, CleanSet;
    SameQueue(s, p, s', StartAbort(p'));
  }

  /** Every step, careful or not. */
  lemma StepQueue(s: Sys, step: Step)
    requires QueueInv(s) && Enabled(s, step)
    ensures QueueInv(Do(s, step))
  {
    hide Holds, Readable, QueueOk, RecoverSet, CleanSet, AllOf;
    if s.proc.None? {
      OpenQueue(s);
    } else {
      var p := s.proc.value;
      match step
      case Begin(ok) => BeginQueue(s, p, ok);
      case SaveFirstWal(ok) => if !ok { AbortQueue(s, p, p, Do(s, step)); }
      case GiveUp => AbortQueue(s, p, p, Do(s, step));
      case SaveWal(ok) => if !ok { AbortQueue(s, p, p, Do(s, step)); }
      case SaveCow(id, outcome) => SaveCowQueue(s, p, id, outcome);
      case CommitFail => AbortQueue(s, p, p, Do(s, step));
      case SaveCommit(ok) => if ok { CommitQueue(s, p); } else { AbortQueue(s, p, p, Do(s, step)); }
      case SaveEnd(ok) => EndQueue(s, p, ok);
      case Redo => CleanQueue(s, p, step);
      case CleanDel(_) => CleanQueue(s, p, step);
      case CleanFail(_) => CleanQueue(s, p, step);
      case CleanDone => CleanQueue(s, p, step);
      case RemoveWal(arms, ok) => RemoveQueue(s, p, arms, ok);
      case Stop =>
      case _ => InnerQueue(s, p, step);
    }
  }

  lemma SaveCowQueue(s: Sys, p: Proc, id: Eid, outcome: Outcome)
    requires QueueInv(s) && s.proc == Some(p) && Enabled(s, SaveCow(id, outcome))
    ensures QueueInv(DoSaveCow(s, p, id, outcome))
  {
    hide Holds, Readable, QueueOk, CleanSet, AbortCows;
    if !outcome.Saved? {
      var c := p.cows[id];
      AbortQueue(s, p, p.(cows := p.cows[id := c.(seqNo := c.seqNo + 1)]), DoSaveCow(s, p, id, outcome));
    }
  }

  // steps that neither save the queue nor end a transaction
  lemma InnerQueue(s: Sys, p: Proc, step: Step)
    requires QueueInv(s) && s.proc == Some(p) && Enabled(s, step)
    requires step.Create? || step.Modify? || step.LoadCow? || step.Evict? || step.Commit? || step.CowsSaved? || step.RecycleDel?
    ensures QueueInv(Do(s, step))
  {
    hide Holds, Readable, QueueOk, LoadItem, QueueHeld;
    SameQueue(s, p, Do(s, step), Do(s, step).proc.value);
  }

  // steps of an abort or a redo before its queue save
  lemma CleanQueue(s: Sys, p: Proc, step: Step)
    requires QueueInv(s) && s.proc == Some(p) && Enabled(s, step)
    requires step.Redo? || step.CleanDel? || step.CleanFail? || step.CleanDone?
    ensures QueueInv(Do(s, step))
  {
    hide Holds, Readable, QueueOk, AllOf, LoadItem, QueueHeld;
    var s' := Do(s, step);
    assert s'.disk.SavedQueue() == s.disk.SavedQueue();
    if s'.proc.Some? {
      SameQueue(s, p, s', s'.proc.value);
    }
  }

  lemma RemoveQueue(s: Sys, p: Proc, arms: set<Arm>, ok: bool)
    requires QueueInv(s) && s.proc == Some(p) && p.phase.RemovingWal?
    ensures QueueInv(DoRemoveWal(s, p, arms, ok))
  {
    hide Holds, Readable, QueueOk, LoadItem, QueueHeld;
    SameQueue(s, p, DoRemoveWal(s, p, arms, ok), DoRemoveWal(s, p, arms, ok).proc.value);
  }

  lemma OpenQueue(s: Sys)
    requires QueueInv(s) && s.proc.None? && LoadItem(s.disk.walq).Loaded?
    ensures QueueInv(DoOpen(s))
  {
    hide QueueOk, RecoverSet;
  }

  lemma {:induction false} RunQueueFrom(s: Sys, steps: seq<Step>)
    requires QueueInv(s) && Legal(s, steps)
    ensures QueueInv(Exec(s, steps))
    decreases |steps|
  {
    hide QueueInv, Enabled, Do;
    if steps != [] {
      StepQueue(s, steps[0]);
      RunQueueFrom(Do(s, steps[0]), steps[1..]);
    }
  }

  lemma RunQueue(steps: seq<Step>)
    requires Legal(Init(), steps)
    ensures QueueInv(Exec(Init(), steps))
  {
    hide Legal, Exec;
    RunQueueFrom(Init(), steps);
  }

  /** The queue over every run: pending aborts are among the doing, at most one
      transaction is doing, none is both doing and done, at most two are done, no
      transaction runs while an abort is pending. */
  lemma QueueShape(steps: seq<Step>, p: Proc)
    requires Legal(Init(), steps) && Exec(Init(), steps).proc == Some(p)
    ensures p.aborting.Keys <= p.queue.doing && |p.queue.doing| <= 1
    ensures (forall t :: t in p.queue.done ==> t !in p.queue.doing) && |p.queue.done| <= COMMITTED_QUEUE_SIZE
    ensures InTx(p.phase) ==> p.aborting == map[] && p.queue.doing == {p.tx.id}
    ensures forall t :: t in p.queue.done || t in p.queue.doing ==> t <= p.wmark
    ensures Exec(Init(), steps).disk.SavedQueue() == p.queue
  {
    hide Legal, Exec, QueueHeld;
    RunQueue(steps);
    SavedSame(Exec(Init(), steps), p);
  }

  // ---- a cold recovery, as a run ----

  predicate IsRecovery(step: Step) {
    step.Open? || step.CleanDel? || step.CleanFail? || step.CleanDone? || step.SaveEnd? || step.Stop?
  }

  ghost predicate SameCows(d: Disk, d': Disk) {
    forall id :: d'.Cow(id) == d.Cow(id)
  }

  // what a recovery under way has yet to delete
  function ToDelete(s: Sys): set<Site> {
    if s.proc.None? then RecoverSet(s.disk)
    else if s.proc.value.phase.Cleaning? then s.proc.value.phase.todo
    else {}
  }

  /** A recovery under way: deleting what is left gives `goal`, and so would
      starting again. */
  ghost predicate Recovering(s: Sys, goal: Disk) {
    && SameCows(s.disk.Delete(ToDelete(s)), goal)
    && SameCows(Recovered(s.disk), goal)
    && (s.proc.Some? ==>
          var p := s.proc.value;
          && (p.phase.Idle? || IsCold(p.phase)) && ToDelete(s) <= RecoverSet(s.disk)
          && p.aborting == map[] && QueueHeld(s, p))
  }

  lemma DeleteTwice(disk: Disk, first: set<Site>, then_: set<Site>)
    ensures SameCows(disk.Delete(first).Delete(then_), disk.Delete(first + then_))
  {
  }

  lemma DeleteSome(disk: Disk, some: set<Site>, all: set<Site>, goal: Disk)
    requires some <= all && SameCows(disk.Delete(all), goal)
    ensures SameCows(disk.Delete(some).Delete(all), goal) && SameCows(disk.Delete(some).Delete(all - some), goal)
  {
    DeleteTwice(disk, some, all);
    DeleteTwice(disk, some, all - some);
    assert some + all == all && some + (all - some) == all;
  }

  lemma DeleteNone(disk: Disk)
    ensures SameCows(disk, disk.Delete({}))
  {
  }

  lemma RecoveringDelete(s: Sys, p: Proc, goal: Disk, gone: set<Site>, s': Sys)
    requires Recovering(s, goal) && s.proc == Some(p) && p.phase.Cleaning? && gone <= p.phase.todo
    requires s'.disk == s.disk.Delete(gone)
    requires s'.proc == None || s'.proc == Some(p.(phase := Cleaning(p.phase.mode, p.phase.todo - gone)))
    ensures Recovering(s', goal)
  {
    hide RecoverSet, SameCows, Holds;
    SameRecover(s.disk, s'.disk);
    DeleteSome(s.disk, gone, RecoverSet(s.disk), goal);
    DeleteSome(s.disk, gone, p.phase.todo, goal);
  }

  lemma RecoveringSave(s: Sys, p: Proc, goal: Disk)
    requires QueueInv(s) && Recovering(s, goal) && s.proc == Some(p) && p.phase == Ending(ColdRedo)
    ensures Recovering(DoSaveEnd(s, p, true), goal)
  {
    hide RecoverSet, Holds, QueueOk;
    var s' := DoSaveEnd(s, p, true);
    var q := Queue(p.wmark, p.queue.done, p.queue.doing - Ended(p, p.phase.mode));
    QueuePut(s, p, q);
    HeldAfterSave(s', s'.proc.value);
    RecoverNone(s'.disk);
    DeleteNone(s.disk);
    DeleteNone(s'.disk);
  }

  lemma RecoveringOpen(s: Sys, goal: Disk)
    requires QueueInv(s) && Recovering(s, goal) && s.proc.None? && Enabled(s, Open)
    ensures Recovering(DoOpen(s), goal)
  {
    hide RecoverSet, QueueOk, SameCows;
    if s.disk.SavedQueue().doing == {} {
      RecoverNone(s.disk);
    }
  }

  lemma RecoveringStep(s: Sys, step: Step, goal: Disk)
    requires QueueInv(s) && Recovering(s, goal) && Enabled(s, step) && IsRecovery(step)
    ensures Recovering(Do(s, step), goal)
  {
    hide RecoverSet, QueueInv, SameCows, Holds, QueueHeld;
    if s.proc.None? {
      RecoveringOpen(s, goal);
    } else {
      var p := s.proc.value;
      match step
      case CleanDel(site) => RecoveringDelete(s, p, goal, {site}, Do(s, step));
      case CleanFail(gone) => RecoveringDelete(s, p, goal, gone, Do(s, step));
      case CleanDone => SameQueue(s, p, Do(s, step), Do(s, step).proc.value);
      case SaveEnd(ok) =>
        if ok {
          RecoveringSave(s, p, goal);
        }
      case Stop =>
      case Open =>
    }
  }

  lemma {:induction false} RecoveringRun(s: Sys, steps: seq<Step>, goal: Disk)
    requires QueueInv(s) && Recovering(s, goal) && Legal(s, steps)
    requires forall i :: 0 <= i < |steps| ==> IsRecovery(steps[i])
    ensures QueueInv(Exec(s, steps)) && Recovering(Exec(s, steps), goal)
    decreases |steps|
  {
    hide QueueInv, Recovering, Enabled, Do;
    if steps != [] {
      StepQueue(s, steps[0]);
      RecoveringStep(s, steps[0], goal);
      RecoveringRun(Do(s, steps[0]), steps[1..], goal);
    }
  }

  /** Recovery is re-entrant: from the store any run leaves, recoveries failing or
      stopped at any step any number of times always leave the same store to
      recover to, and one that ends has reached it. */
  lemma RecoveryReentrant(steps: seq<Step>, again: seq<Step>)
    requires Legal(Init(), steps) && Exec(Init(), steps).proc.None? && Legal(Exec(Init(), steps), again)
    requires forall i :: 0 <= i < |again| ==> IsRecovery(again[i])
    ensures var s, s' := Exec(Init(), steps), Exec(Exec(Init(), steps), again);
      && SameCows(Recovered(s.disk), Recovered(s'.disk))
      && (s'.proc.Some? && s'.proc.value.phase.Idle? ==> SameCows(Recovered(s.disk), s'.disk))
  {
    hide QueueInv, Legal, Exec, RecoverSet;
    RunQueue(steps);
    var s := Exec(Init(), steps);
    RecoveringRun(s, again, Recovered(s.disk));
    DeleteNone(Exec(s, again).disk);
  }

  lemma {:induction false} ExecConcat(s: Sys, first: seq<Step>, second: seq<Step>)
    requires Legal(s, first) && Legal(Exec(s, first), second)
    ensures Legal(s, first + second) && Exec(s, first + second) == Exec(Exec(s, first), second)
    decreases |first|
  {
    hide Enabled, Do;
    if first == [] {
      assert first + second == second;
    } else {
      ExecConcat(Do(s, first[0]), first[1..], second);
      assert (first + second)[1..] == first[1..] + second;
    }
  }

  lemma {:induction false} CleanAll(s: Sys, p: Proc) returns (steps: seq<Step>)
    requires s.proc == Some(p) && p.phase.Cleaning?
    ensures Legal(s, steps) && forall i :: 0 <= i < |steps| ==> IsRecovery(steps[i])
    ensures var s' := Exec(s, steps);
      && s'.proc == Some(p.(phase := Cleaning(p.phase.mode, {}))) && SameCows(s.disk.Delete(p.phase.todo), s'.disk)
      && s'.disk.walq == s.disk.walq && s'.disk.wals == s.disk.wals && s'.committed == s.committed
    ensures forall i :: 0 <= i < |steps| ==> steps[i].CleanDel?
    decreases |p.phase.todo|
  {
    hide SameCows;
    if p.phase.todo == {} {
      steps := [];
      DeleteNone(s.disk);
      SameSym(s.disk, s.disk.Delete({}));
    } else {
      var site :| site in p.phase.todo;
      var s' := Do(s, CleanDel(site));
      var rest := CleanAll(s', s'.proc.value);
      steps := [CleanDel(site)] + rest;
      assert {site} + (p.phase.todo - {site}) == p.phase.todo;
      DeleteTwice(s.disk, {site}, p.phase.todo - {site});
      SameTrans(s.disk.Delete(p.phase.todo), s.disk.Delete({site}).Delete(p.phase.todo - {site}), Exec(s, steps).disk);
    }
  }

  lemma SameSym(d: Disk, d': Disk)
    requires SameCows(d, d')
    ensures SameCows(d', d)
  {
  }

  lemma SameTrans(d: Disk, d': Disk, d'': Disk)
    requires SameCows(d', d) && SameCows(d', d'')
    ensures SameCows(d, d'')
  {
  }

  lemma ExecStep(s: Sys, steps: seq<Step>, step: Step)
    requires Legal(s, steps) && Enabled(Exec(s, steps), step)
    ensures Legal(s, steps + [step]) && Exec(s, steps + [step]) == Do(Exec(s, steps), step)
  {
    hide Do, Enabled;
    var s' := Exec(s, steps);
    assert [step][1..] == [] && Legal(Do(s', step), []) && Exec(Do(s', step), []) == Do(s', step);
    assert Legal(s', [step]) && Exec(s', [step]) == Do(s', step);
    ExecConcat(s, steps, [step]);
  }

  /** An open can always be completed: after any run that saved a queue and
      stopped, some recovery ends with a process ready for transactions. */
  lemma RecoveryCompletes(steps: seq<Step>) returns (again: seq<Step>)
    requires Legal(Init(), steps) && Exec(Init(), steps).proc.None?
    requires Enabled(Exec(Init(), steps), Open)
    ensures Legal(Exec(Init(), steps), again) && forall i :: 0 <= i < |again| ==> IsRecovery(again[i])
    ensures var s' := Exec(Exec(Init(), steps), again);
      s'.proc.Some? && s'.proc.value.phase.Idle? && Enabled(s', Begin(true))
  {
    hide RecoverSet, Legal, Exec, LoadItem;
    var s := Exec(Init(), steps);
    assert Legal(s, []) && Exec(s, []) == s by { NoSteps(s); }
    ExecStep(s, [], Open);
    again := [] + [Open];
    var s1 := Do(s, Open);
    if !s1.proc.value.phase.Idle? {
      var clean := CleanAll(s1, s1.proc.value);
      ExecConcat(s, again, clean);
      again := again + clean;
      ExecStep(s, again, CleanDone);
      again := again + [CleanDone];
      ExecStep(s, again, SaveEnd(true));
      again := again + [SaveEnd(true)];
    }
  }

  lemma NoSteps(s: Sys)
    ensures Legal(s, []) && Exec(s, []) == s
  {
  }

  // ---- a hot recovery, as a run ----

  predicate IsRedo(step: Step) {
    step.Redo? || step.CleanDel? || step.CleanFail? || step.CleanDone? || step.SaveEnd?
  }

  // what a hot redo has yet to delete
  function ToRedo(p: Proc): set<Site> {
    match p.phase
    case Cleaning(_, todo) => todo
    case Ending(_) => {}
    case _ => AllOf(p.aborting)
  }

  /** A hot redo under way or given up: deleting what is left gives `goal`, and so
      would starting again. */
  ghost predicate Redoing(s: Sys, goal: Disk) {
    s.proc.Some? &&
    var p := s.proc.value;
    && (p.phase.Idle? || p.phase == Ending(HotRedo) || (p.phase.Cleaning? && p.phase.mode.HotRedo?))
    && ToRedo(p) <= AllOf(p.aborting)
    && SameCows(s.disk.Delete(ToRedo(p)), goal) && SameCows(s.disk.Delete(AllOf(p.aborting)), goal)
  }

  lemma RedoingDelete(s: Sys, p: Proc, gone: set<Site>, goal: Disk, s': Sys)
    requires Redoing(s, goal) && s.proc == Some(p) && p.phase.Cleaning? && gone <= p.phase.todo
    requires s'.disk == s.disk.Delete(gone) && s'.proc.Some? && s'.proc.value.aborting == p.aborting
    requires s'.proc.value.phase == Idle || s'.proc.value.phase == Cleaning(p.phase.mode, p.phase.todo - gone)
    ensures Redoing(s', goal)
  {
    hide AllOf, SameCows;
    DeleteSome(s.disk, gone, AllOf(p.aborting), goal);
    DeleteSome(s.disk, gone, p.phase.todo, goal);
  }

  lemma RedoingSave(s: Sys, p: Proc, ok: bool, goal: Disk)
    requires Redoing(s, goal) && s.proc == Some(p) && p.phase == Ending(HotRedo)
    ensures Redoing(DoSaveEnd(s, p, ok), goal)
  {
    if ok {
      var p' := DoSaveEnd(s, p, ok).proc.value;
      assert p'.aborting == map[];
      AllOfNone();
    }
  }

  lemma RedoingStep(s: Sys, step: Step, goal: Disk)
    requires Redoing(s, goal) && Enabled(s, step) && IsRedo(step)
    ensures Redoing(Do(s, step), goal)
  {
    hide AllOf, SameCows;
    var p := s.proc.value;
    match step
    case Redo =>
    case CleanDel(site) => RedoingDelete(s, p, {site}, goal, Do(s, step));
    case CleanFail(gone) => RedoingDelete(s, p, gone, goal, Do(s, step));
    case CleanDone =>
    case SaveEnd(ok) => RedoingSave(s, p, ok, goal);
  }

  lemma {:induction false} RedoingRun(s: Sys, steps: seq<Step>, goal: Disk)
    requires Redoing(s, goal) && Legal(s, steps) && forall i :: 0 <= i < |steps| ==> IsRedo(steps[i])
    ensures Redoing(Exec(s, steps), goal)
    decreases |steps|
  {
    hide Redoing, Enabled, Do;
    if steps != [] {
      RedoingStep(s, steps[0], goal);
      RedoingRun(Do(s, steps[0]), steps[1..], goal);
    }
  }

  /** A hot redo is re-entrant: from any state with aborts pending, redoing them,
      failing at any step any number of times, always leaves the same store to
      redo to, and once no abort is pending that store is reached. */
  lemma RedoReentrant(steps: seq<Step>, p: Proc, again: seq<Step>)
    requires Legal(Init(), steps) && Exec(Init(), steps).proc == Some(p) && p.phase.Idle?
    requires Legal(Exec(Init(), steps), again) && forall i :: 0 <= i < |again| ==> IsRedo(again[i])
    ensures var s, s' := Exec(Init(), steps), Exec(Exec(Init(), steps), again);
      && s'.proc.Some? && SameCows(s.disk.Delete(AllOf(p.aborting)), s'.disk.Delete(AllOf(s'.proc.value.aborting)))
      && (s'.proc.value.aborting == map[] ==> SameCows(s.disk.Delete(AllOf(p.aborting)), s'.disk))
  {
    hide Legal, Exec, AllOf;
    var s := Exec(Init(), steps);
    RedoingRun(s, again, s.disk.Delete(AllOf(p.aborting)));
    var s' := Exec(s, again);
    AllOfNone();
    DeleteNone(s'.disk);
  }
}
