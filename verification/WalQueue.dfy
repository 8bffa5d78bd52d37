/** The queue of transactions as the program keeps it: fields changed in place, with
    a backup to go back to when a save fails. Each method does what the step of
    the crash model with its name does. */
module WalQueue {
  import opened Basics
  import opened Armor
  import opened Transactions
  import opened TransactionsProof

  // the queue with what it keeps in memory only
  datatype WalQ = WalQ(seqNo: nat, arm: Arm, wmark: Txid, done: seq<Txid>, doing: set<Txid>, aborting: map<Txid, Entries>) {
    function Saved(): Queue { Queue(wmark, done, doing) }
  }

  // the transactions a commit retires
  function Retirees(done: seq<Txid>): seq<Txid> {
    if |done| < COMMITTED_QUEUE_SIZE then [] else done[..|done| - 1]
  }

  function Log(wals: map<Txid, Arms<Entries>>, t: Txid): Arms<Entries> {
    if t in wals then wals[t] else Arms(Absent, Absent)
  }

  predicate IsGone(wals: map<Txid, Arms<Entries>>, t: Txid) {
    Log(wals, t) == Arms(Absent, Absent)
  }

  // a log is gone, or can be loaded and both its arms deleted
  predicate CanRecycle(log: Arms<Entries>, removed: set<Arm>) {
    var l := LoadItem(log);
    l.NotFound? || (l.Loaded? && Left in removed && Right in removed)
  }

  predicate CanRetire(wals: map<Txid, Arms<Entries>>, done: seq<Txid>, removed: Txid -> set<Arm>) {
    forall t :: t in Retirees(done) ==> CanRecycle(Log(wals, t), removed(t))
  }

  /** Removing the logs is what lets the crash model take its commit step. */
  lemma RetiredIsRecycled(disk: Disk, done: seq<Txid>)
    ensures (forall t :: t in Retirees(done) ==> IsGone(disk.wals, t)) <==> Recycled(disk, done)
  {
    if forall t :: t in Retirees(done) ==> IsGone(disk.wals, t) {
      forall i | 0 <= i <= |done| - COMMITTED_QUEUE_SIZE ensures disk.Wal(done[i]) == Arms(Absent, Absent) {
        assert Retirees(done)[i] in Retirees(done);
      }
    }
    if Recycled(disk, done) {
      forall t | t in Retirees(done) ensures IsGone(disk.wals, t) {
        var i :| 0 <= i < |Retirees(done)| && Retirees(done)[i] == t;
        assert disk.Wal(done[i]) == Arms(Absent, Absent);
      }
    }
  }

  /** What is not retired is the newest one, as in the crash model. */
  lemma NewestLeft(done: seq<Txid>, t: Txid)
    ensures |Retirees(done)| <= |done| && done[|Retirees(done)|..] == Retire(done)
    ensures Retire(done) + [t] == if done == [] then [t] else [done[|done| - 1], t]
  {
    RetireShort(done);
  }

  class WalQueueMgr {
    var txidWmark: Txid
    var walq: WalQ
    var backup: Option<WalQ>
    var stored: Arms<Queue>
    var wals: map<Txid, Arms<Entries>>

    /** The manager is in the state the crash model gives. */
    ghost predicate Matches(disk: Disk, p: Proc)
      reads this
    {
      && txidWmark == p.wmark && stored == disk.walq && wals == disk.wals
      && walq == WalQ(p.qSeqNo, p.qArm, p.queue.wmark, p.queue.done, p.queue.doing, p.aborting)
    }

    constructor ()
      ensures Matches(Init().disk, Init().proc.value)
    {
      txidWmark, walq, backup := 0, WalQ(0, Left, 0, [], {}, map[]), None;
      stored, wals := Arms(Absent, Absent), map[];
    }

    method Backup()
      modifies this`backup
      ensures backup == Some(walq)
    {
      backup := Some(walq);
    }

    method Restore()
      requires backup.Some?
      modifies this`walq, this`backup
      ensures walq == old(backup).value
    {
      walq, backup := backup.value, None;
    }

    // set the watermark, raise the sequence, save to the other arm
    method Save(ok: bool)
      modifies this`walq, this`stored
      ensures var q := Queue(txidWmark, old(walq).done, old(walq).doing);
        stored == if ok then old(stored).Put(old(walq).arm.Other(), Stored(old(walq).seqNo + 1, q)) else old(stored)
      ensures walq == old(walq).(wmark := txidWmark, seqNo := old(walq).seqNo + 1,
                                 arm := if ok then old(walq).arm.Other() else old(walq).arm)
    {
      walq := walq.(wmark := txidWmark);
      walq := walq.(seqNo := walq.seqNo + 1);
      walq := walq.(arm := walq.arm.Other());
      if ok {
        stored := stored.Put(walq.arm, Stored(walq.seqNo, walq.Saved()));
      } else {
        walq := walq.(arm := walq.arm.Other());
      }
    }

    method BeginTrans(ok: bool, ghost s: Sys, ghost p: Proc) returns (t: Txid)
      requires Matches(s.disk, p)
      modifies this
      ensures var s' := DoBegin(s, p, ok); s'.proc.Some? && Matches(s'.disk, s'.proc.value)
      ensures t == p.wmark + 1
    {
      txidWmark := txidWmark + 1;
      t := txidWmark;
      Backup();
      walq := walq.(doing := walq.doing + {t});
      Save(ok);
      if !ok {
        Restore();
      }
    }

    /** Remove the log of the oldest transaction done; `removed` is what could be deleted
        of it. A log that is not there has been removed before. */
    method RecycleTrans(removed: set<Arm>) returns (ok: bool)
      requires walq.done != []
      modifies this`wals
      ensures ok <==> CanRecycle(Log(old(wals), walq.done[0]), removed)
      ensures ok ==> IsGone(wals, walq.done[0])
      ensures forall t :: t != walq.done[0] ==> Log(wals, t) == Log(old(wals), t)
    {
      var t := walq.done[0];
      var log := Log(wals, t);
      match LoadItem(log)
      case NotFound => ok := true;
      case Failed => ok := false;
      case Loaded(_, _, _) =>
        if Left in removed {
          log := log.Put(Left, Absent);
        }
        if Right in removed {
          log := log.Put(Right, Absent);
        }
        wals := wals[t := log];
        ok := Left in removed && Right in removed;
    }

    /** Remove the logs of the transactions to be retired and take them off the queue. */
    method RetireTrans(removed: Txid -> set<Arm>) returns (ok: bool)
      modifies this`walq, this`wals
      ensures ok <==> CanRetire(old(wals), old(walq).done, removed)
      ensures ok ==> walq == old(walq).(done := old(walq).done[|Retirees(old(walq).done)|..])
      ensures ok ==> forall t :: t in Retirees(old(walq).done) ==> IsGone(wals, t)
      ensures forall t :: t !in Retirees(old(walq).done) ==> Log(wals, t) == Log(old(wals), t)
    {
      ghost var was, logs, gone := walq, wals, 0;
      ghost var retirees := Retirees(was.done);
      while |walq.done| >= COMMITTED_QUEUE_SIZE
        invariant gone <= |retirees| && walq == was.(done := was.done[gone..])
        invariant forall i :: 0 <= i < gone ==> IsGone(wals, retirees[i]) && CanRecycle(Log(logs, retirees[i]), removed(retirees[i]))
        invariant forall t :: t !in retirees[..gone] ==> Log(wals, t) == Log(logs, t)
        decreases |walq.done|
      {
        assert walq.done[0] == retirees[gone] && retirees[..gone + 1] == retirees[..gone] + [retirees[gone]];
        var recycled := RecycleTrans(removed(walq.done[0]));
        if !recycled {
          return false;
        }
        walq := walq.(done := walq.done[1..]);
        gone := gone + 1;
      }
      assert retirees[..gone] == retirees;
      return true;
    }

    /** Retire, move the transaction from doing to done, save; `removed` says what could be
        deleted of each log. A full queue loses its oldest transaction, whose log is gone
        by then; no other log changes. */
    method CommitTrans(t: Txid, removed: Txid -> set<Arm>, ok: bool, ghost s: Sys, ghost p: Proc) returns (done: bool)
      requires Matches(s.disk, p) && t == p.tx.id
      modifies this
      ensures done <==> CanRetire(old(wals), old(walq).done, removed) && ok
      ensures done ==> walq.done == if old(walq).done == [] then [t] else [old(walq).done[|old(walq).done| - 1], t]
      ensures done ==> forall u :: u in Retirees(old(walq).done) ==> IsGone(wals, u)
      ensures forall u :: u !in Retirees(old(walq).done) ==> Log(wals, u) == Log(old(wals), u)
      ensures var s1 := s.(disk := s.disk.(wals := wals));
        if done then var s' := DoSaveCommit(s1, p, true); s'.proc.Some? && Matches(s'.disk, s'.proc.value)
        else Matches(s1.disk, p)
    {
      hide CanRetire, IsGone, Log, Retire, Retirees, CompleteCows, CommitHomes;
      NewestLeft(walq.done, t);
      Backup();
      var retired := RetireTrans(removed);
      if !retired {
        Restore();
        return false;
      }
      walq := walq.(doing := walq.doing - {t});
      walq := walq.(done := walq.done + [t]);
      Save(ok);
      if !ok {
        Restore();
      }
      done := ok;
    }

    method BeginAbort(t: Txid, entries: Entries, ghost s: Sys, ghost p: Proc)
      requires Matches(s.disk, p) && t == p.tx.id && entries == p.tx.entries
      modifies this`walq
      ensures Matches(s.disk, StartAbort(p))
    {
      walq := walq.(aborting := walq.aborting[t := entries]);
    }

    // forget transactions whose abort is complete
    method Forget(ended: set<Txid>)
      modifies this`walq
      ensures walq == old(walq).(aborting := old(walq).aborting - ended, doing := old(walq).doing - ended)
    {
      var left := ended;
      while left != {}
        invariant left <= ended
        invariant walq == old(walq).(aborting := walq.aborting, doing := walq.doing)
        invariant walq.aborting == old(walq).aborting - (ended - left) && walq.doing == old(walq).doing - (ended - left)
      {
        var t :| t in left;
        walq := walq.(aborting := walq.aborting - {t}, doing := walq.doing - {t});
        left := left - {t};
        assert ended - left == (ended - (left + {t})) + {t};
      }
      assert ended - {} == ended;
    }

    /** The end of an abort, of a hot redo or of a cold one. */
    method End(mode: Mode, ok: bool, ghost s: Sys, ghost p: Proc)
      requires Matches(s.disk, p) && p.phase == Ending(mode) && (mode.InAbort? ==> walq.aborting.Keys == {p.tx.id})
      requires mode.ColdRedo? ==> p.aborting == map[]
      modifies this
      ensures var s' := DoSaveEnd(s, p, ok); s'.proc.Some? ==> Matches(s'.disk, s'.proc.value)
      ensures !ok ==> Matches(s.disk, p)
    {
      Backup();
      var ended := if mode.ColdRedo? then walq.doing else walq.aborting.Keys;
      Forget(ended);
      Save(ok);
      if !ok {
        Restore();
      }
    }

    /** Load the queue saved last, and the watermark with it. */
    method Open(ghost s: Sys)
      requires stored == s.disk.walq && wals == s.disk.wals && LoadItem(stored).Loaded?
      modifies this
      ensures var s' := DoOpen(s); s'.proc.Some? && Matches(s'.disk, s'.proc.value)
    {
      var l := LoadItem(stored);
      walq := WalQ(l.seqNo, l.arm, l.value.wmark, l.value.done, l.value.doing, map[]);
      txidWmark := walq.wmark;
    }
  }
}
