/** Which transactions the queue remembers over every run, and what becomes of the
    logs of those it no longer does. */
module Retirement {
  import opened Basics
  import opened Armor
  import opened Transactions
  import opened TransactionsInv
  import opened TransactionsProof
  import opened Reentrancy

  /** The transactions whose commit-time queue save was taken, in order. */
  function Commits(s: Sys, steps: seq<Step>): seq<Txid>
    requires Legal(s, steps)
    decreases |steps|
  {
    if steps == [] then []
    else
      var now := if steps[0] == SaveCommit(true) then [s.proc.value.tx.id] else [];
      now + Commits(Do(s, steps[0]), steps[1..])
  }

  /** `ts` have been committed so far: the queue saved has the newest of them, all others
      have left no log. */
  ghost predicate Remembers(disk: Disk, ts: seq<Txid>) {
    && disk.SavedQueue().done == Newest(ts)
    && (forall t :: t in ts ==> t <= disk.SavedQueue().wmark && t !in disk.SavedQueue().doing)
    && (forall i :: 0 <= i < |ts| - COMMITTED_QUEUE_SIZE ==> disk.Wal(ts[i]) == Arms(Absent, Absent))
    && (forall i, j :: 0 <= i < j < |ts| ==> ts[i] != ts[j])
  }

  // a log that is not the running transaction's is at most deleted
  lemma LogStaysGone(s: Sys, step: Step, t: Txid)
    requires Enabled(s, step) && s.disk.Wal(t) == Arms(Absent, Absent)
    requires s.proc.Some? && InTx(s.proc.value.phase) ==> s.proc.value.tx.id != t
    ensures Do(s, step).disk.Wal(t) == Arms(Absent, Absent)
  {
    hide LoadItem, CleanSet, AllOf, RecoverSet, Recycled;
  }

  // the queue saved is another one only after the three saves that are meant to
  lemma QueueStays(s: Sys, step: Step)
    requires Enabled(s, step) && !(step.Begin? && step.ok) && !(step.SaveCommit? && step.ok) && !(step.SaveEnd? && step.ok)
    ensures Do(s, step).disk.walq == s.disk.walq
  {
    hide LoadItem, CleanSet, AllOf, RecoverSet, Recycled;
  }

  // what the queue saved is after a step other than a commit
  lemma QueueMoves(s: Sys, step: Step)
    requires QueueInv(s) && Enabled(s, step) && !(step.SaveCommit? && step.ok)
    ensures var q, q' := s.disk.SavedQueue(), Do(s, step).disk.SavedQueue();
      && q'.done == q.done && q'.wmark >= q.wmark
      && (forall t :: t in q'.doing ==> t in q.doing || t > q.wmark)
  {
    hide Holds, Readable, QueueOk, QueueHeld, LoadItem, Recycled;
    if s.proc.Some? {
      var p := s.proc.value;
      SavedSame(s, p);
      match step
      case Begin(true) => SavedIs(s, p, Queue(p.wmark + 1, p.queue.done, p.queue.doing + {p.wmark + 1}), Do(s, step));
      case SaveEnd(true) =>
        SavedIs(s, p, Queue(p.wmark, p.queue.done, p.queue.doing - Ended(p, p.phase.mode)), Do(s, step));
      case _ => QueueStays(s, step);
    } else {
      QueueStays(s, step);
    }
  }

  lemma SavedIs(s: Sys, p: Proc, q: Queue, s': Sys)
    requires QueueInv(s) && s.proc == Some(p) && s'.disk == WithQueue(s, p, q).0
    ensures s'.disk.SavedQueue() == q
  {
    hide QueueOk, Holds, QueueHeld, Readable;
    QueuePut(s, p, q);
  }

  lemma NewestNext(ts: seq<Txid>, t: Txid)
    ensures Retire(Newest(ts)) + [t] == Newest(ts + [t])
  {
    RetireShort(Newest(ts));
  }

  /** The commit of `t`: the oldest of a full queue goes, and its log is gone. */
  lemma CommitRemembers(s: Sys, p: Proc, ts: seq<Txid>)
    requires QueueInv(s) && s.proc == Some(p) && Enabled(s, SaveCommit(true)) && Remembers(s.disk, ts)
    ensures Remembers(DoSaveCommit(s, p, true).disk, ts + [p.tx.id])
  {
    hide Holds, Readable, QueueOk, QueueHeld, Retire, CompleteCows, CommitHomes;
    SavedSame(s, p);
    var s', t := DoSaveCommit(s, p, true), p.tx.id;
    var q := Committed(p.queue, p.wmark, t);
    SavedIs(s, p, q, s');
    NewestNext(ts, t);
    DoingBelow(p.queue, t);
    forall i | 0 <= i < |ts + [t]| - COMMITTED_QUEUE_SIZE
      ensures s'.disk.Wal((ts + [t])[i]) == Arms(Absent, Absent)
    {
      if i == |ts| - COMMITTED_QUEUE_SIZE {
        assert p.queue.done[0] == ts[i];
      }
    }
  }

  lemma DoingBelow(q: Queue, t: Txid)
    requires QueueOk(q) && t in q.doing
    ensures t <= q.wmark
  {
  }

  lemma StepRemembers(s: Sys, step: Step, ts: seq<Txid>)
    requires QueueInv(s) && Enabled(s, step) && Remembers(s.disk, ts)
    requires step != SaveCommit(true)
    ensures Remembers(Do(s, step).disk, ts)
  {
    hide Holds, Readable, QueueOk, QueueHeld, Do, Enabled;
    QueueMoves(s, step);
    if s.proc.Some? {
      SavedSame(s, s.proc.value);
    }
    forall i | 0 <= i < |ts| - COMMITTED_QUEUE_SIZE ensures Do(s, step).disk.Wal(ts[i]) == Arms(Absent, Absent) {
      assert ts[i] in ts;
      LogStaysGone(s, step, ts[i]);
    }
  }

  lemma {:induction false} RunRemembers(s: Sys, steps: seq<Step>, ts: seq<Txid>)
    requires QueueInv(s) && Legal(s, steps) && Remembers(s.disk, ts)
    ensures Remembers(Exec(s, steps).disk, ts + Commits(s, steps))
    decreases |steps|
  {
    hide QueueInv, Enabled, Do, Remembers;
    if steps == [] {
      assert ts + [] == ts;
    } else {
      var s' := Do(s, steps[0]);
      StepQueue(s, steps[0]);
      if steps[0] == SaveCommit(true) {
        CommitIs(s);
        CommitRemembers(s, s.proc.value, ts);
        var now := [s.proc.value.tx.id];
        RunRemembers(s', steps[1..], ts + now);
        assert ts + (now + Commits(s', steps[1..])) == ts + now + Commits(s', steps[1..]);
      } else {
        StepRemembers(s, steps[0], ts);
        RunRemembers(s', steps[1..], ts);
        assert [] + Commits(s', steps[1..]) == Commits(s', steps[1..]);
      }
    }
  }

  lemma CommitIs(s: Sys)
    requires Enabled(s, SaveCommit(true))
    ensures s.proc.Some? && Do(s, SaveCommit(true)) == DoSaveCommit(s, s.proc.value, true)
  {
  }

  /** Over every run the queue saved remembers the last two transactions committed, in
      order, none is committed twice, and no older one has a stored log. */
  lemma DoneIsNewest(steps: seq<Step>)
    requires Legal(Init(), steps)
    ensures var disk, ts := Exec(Init(), steps).disk, Commits(Init(), steps);
      && disk.SavedQueue().done == (if |ts| < 2 then ts else [ts[|ts| - 2], ts[|ts| - 1]])
      && (forall i :: 0 <= i < |ts| - 2 ==> disk.Wal(ts[i]) == Arms(Absent, Absent))
      && (forall i, j :: 0 <= i < j < |ts| ==> ts[i] != ts[j])
  {
    hide Legal, Exec, Commits;
    RunRemembers(Init(), steps, []);
    assert [] + Commits(Init(), steps) == Commits(Init(), steps);
  }

  // the abort of a transaction is complete but for the queue save
  ghost predicate LogRemoved(s: Sys) {
    s.proc.Some? && s.proc.value.phase == Ending(InAbort) ==> s.disk.Wal(s.proc.value.tx.id) == Arms(Absent, Absent)
  }

  lemma StepRemoves(s: Sys, step: Step)
    requires LogRemoved(s) && Enabled(s, step)
    ensures LogRemoved(Do(s, step))
  {
    hide LoadItem, CleanSet, AllOf, RecoverSet, Recycled;
  }

  lemma {:induction false} RunRemoves(s: Sys, steps: seq<Step>)
    requires LogRemoved(s) && Legal(s, steps)
    ensures LogRemoved(Exec(s, steps))
    decreases |steps|
  {
    hide LogRemoved, Enabled, Do;
    if steps != [] {
      StepRemoves(s, steps[0]);
      RunRemoves(Do(s, steps[0]), steps[1..]);
    }
  }

  /** Over every run a transaction whose abort ends has left no log. */
  lemma AbortedLeavesNoLog(steps: seq<Step>, p: Proc)
    requires Legal(Init(), steps) && Exec(Init(), steps).proc == Some(p) && p.phase == Ending(InAbort)
    ensures Exec(Init(), steps).disk.Wal(p.tx.id) == Arms(Absent, Absent)
  {
    hide Legal, Exec;
    RunRemoves(Init(), steps);
  }

  /** A commit is never stuck at the logs to be removed: from every state of a run in
      which one is due, removing them enables its queue save. */
  lemma CommitCompletes(steps: seq<Step>, p: Proc) returns (more: seq<Step>)
    requires Legal(Init(), steps) && Exec(Init(), steps).proc == Some(p) && p.phase.Committing?
    ensures Legal(Exec(Init(), steps), more) && forall i :: 0 <= i < |more| ==> more[i].RecycleDel?
    ensures var s := Exec(Exec(Init(), steps), more); s.proc == Some(p) && Enabled(s, SaveCommit(true))
  {
    hide Legal, Exec, QueueHeld;
    QueueShape(steps, p);
    var s := Exec(Init(), steps);
    NoSteps(s);
    more := [];
    if |p.queue.done| >= COMMITTED_QUEUE_SIZE {
      ExecStep(s, [], RecycleDel(Left));
      ExecStep(s, [] + [RecycleDel(Left)], RecycleDel(Right));
      more := [] + [RecycleDel(Left)] + [RecycleDel(Right)];
    }
  }
}
