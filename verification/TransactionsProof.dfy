/** Every step of the transaction machine keeps the invariant.

    First what holds of the store alone: deleting safe sites, saving a queue over
    a clean store, changing one log. Then, step by step in the order a
    transaction goes through them, what the store keeps and what the process
    keeps. Each lemma about a step hides the parts of the invariant the step
    does not touch and moves them over with a lemma of their own, so that no
    proof has to look at the whole invariant at once. */
module TransactionsProof {
  import opened Basics
  import opened Armor
  import opened Transactions
  import opened TransactionsInv

  lemma CowsMono(disk: Disk, committed: map<Eid, Home>, dirty: set<Site>, dirty': set<Site>)
    requires CowsOn(disk, committed, dirty) && dirty <= dirty'
    ensures CowsOn(disk, committed, dirty')
  {
    forall id ensures CowOn(disk, committed, dirty', id) {
      assert CowOn(disk, committed, dirty, id);
    }
  }

  /** Deleting safe sites leaves them no longer dirty. */
  lemma CowsDelete(disk: Disk, committed: map<Eid, Home>, dirty: set<Site>, gone: set<Site>)
    requires CowsOn(disk, committed, dirty) && SafeSet(committed, gone)
    ensures CowsOn(disk.Delete(gone), committed, dirty - gone)
  {
    forall id ensures CowOn(disk.Delete(gone), committed, dirty - gone, id) {
      assert CowOn(disk, committed, dirty, id);
      assert SafeSite(committed, Site(id, Left)) || Site(id, Left) !in gone;
      assert SafeSite(committed, Site(id, Right)) || Site(id, Right) !in gone;
    }
  }

  lemma SafeClean(committed: map<Eid, Home>, e: Entries)
    requires SafeEntries(committed, e)
    ensures SafeSet(committed, CleanSet(e))
  {
  }

  lemma SafeAll(committed: map<Eid, Home>, wals: map<Txid, Entries>)
    requires forall t :: t in wals ==> SafeEntries(committed, wals[t])
    ensures SafeSet(committed, AllOf(wals))
  {
    forall t | t in wals { SafeClean(committed, wals[t]); }
  }

  lemma OneWal(wals: map<Txid, Entries>, t: Txid)
    requires wals.Keys == {t}
    ensures AllOf(wals) == CleanSet(wals[t])
  {
  }

  lemma QueueIsSaved(s: Sys, p: Proc)
    requires QueueHeld(s, p) && Readable(s.disk.walq)
    ensures s.disk.SavedQueue() == p.queue
    ensures s.disk.walq != Arms(Absent, Absent) ==> LoadItem(s.disk.walq).Loaded?
  {
    if s.disk.walq != Arms(Absent, Absent) {
      HoldsLoads(Item(p.qSeqNo, p.qArm, s.disk.walq), p.queue);
    }
  }

  lemma QueuePut(s: Sys, p: Proc, q: Queue)
    requires QueueHeld(s, p) && Readable(s.disk.walq)
    ensures var (disk, p') := WithQueue(s, p, q);
      && Readable(disk.walq) && disk.SavedQueue() == q
      && Holds(Item(p'.qSeqNo, p'.qArm, disk.walq), Some(q))
      && disk.wals == s.disk.wals && disk.cows == s.disk.cows
  {
    var (disk, p') := WithQueue(s, p, q);
    HoldsLoads(Item(p'.qSeqNo, p'.qArm, disk.walq), q);
  }

  lemma RecoverOne(disk: Disk, t: Txid)
    requires disk.SavedQueue().doing == {t}
    ensures RecoverSet(disk) == CleanSet(disk.SavedWal(t))
  {
  }

  lemma RecoverNone(disk: Disk)
    requires disk.SavedQueue().doing == {}
    ensures RecoverSet(disk) == {}
  {
  }

  lemma WalIsSaved(s: Sys, p: Proc, e: Entries)
    requires WalSaved(s, p, e) && Readable(s.disk.Wal(p.tx.id))
    ensures s.disk.SavedWal(p.tx.id) == e
  {
    HoldsLoads(Item(p.tx.seqNo, p.tx.arm, s.disk.Wal(p.tx.id)), e);
  }

  // the store keeps its invariant when nothing is dirty, whatever the queue and
  // logs make of it
  lemma CleanDiskOk(s: Sys)
    requires CowsOn(s.disk, s.committed, {})
    ensures CowsOn(s.disk, s.committed, RecoverSet(s.disk))
  {
    CowsMono(s.disk, s.committed, {}, RecoverSet(s.disk));
  }

  lemma AllOfNone()
    ensures AllOf(map[]) == {}
  {
  }

  // a queue save over a clean store keeps the store's invariant
  lemma QueueStepDisk(s: Sys, p: Proc, q: Queue, s': Sys)
    requires DiskOk(s) && QueueHeld(s, p) && CowsOn(s.disk, s'.committed, {})
    requires QueueOk(q) && q.wmark >= p.queue.wmark
    requires forall t :: t in q.doing ==> s.disk.Wal(t) == Arms(Absent, Absent)
    requires s'.disk == WithQueue(s, p, q).0 && s'.born == s.born && s'.committed.Keys <= s.born
    ensures DiskOk(s') && s'.disk.SavedQueue() == q
    ensures Holds(Item(p.qSeqNo + 1, p.qArm.Other(), s'.disk.walq), Some(q))
    ensures CowsOn(s'.disk, s'.committed, {})
  {
    hide CowsOn, UnbornAbsent, WalsReadable, Readable, Holds, QueueHeld, QueueOk, RecoverSet;
    QueueIsSaved(s, p);
    QueuePut(s, p, q);
    SameStore(s.disk, s'.disk);
    SameCowsOn(s.disk, s'.disk, s'.committed, {});
    CleanDiskOk(s');
  }

  // what a process knows about a store stays true when only the queue changes
  lemma SameKnown(s: Sys, s': Sys, cows: map<Eid, Cow>)
    requires s'.disk.cows == s.disk.cows && s'.committed == s.committed
    requires forall id :: id in cows ==> Known(s, id, cows[id])
    ensures forall id :: id in cows ==> Known(s', id, cows[id])
  {
  }

  lemma StepBegin(s: Sys, p: Proc, ok: bool)
    requires Inv(s) && s.proc == Some(p) && Enabled(s, Begin(ok))
    ensures Inv(DoBegin(s, p, ok))
  {
    hide CowsOn, Readable, Holds, Known, QueueOk, WalsSafe, NoFutureWals, UnbornAbsent, RecoverSet, WalsReadable;
    hide QueueHeld, TxOk;
    var s' := DoBegin(s, p, ok);
    AllOfNone();
    if ok {
      var t := p.wmark + 1;
      BeginQueueOk(s, p);
      QueueStepDisk(s, p, Queue(t, p.queue.done, p.queue.doing + {t}), s');
      SameKnown(s, s', p.cows);
      BeginProcOk(s, p, s');
    } else {
      SameKnown(s, s', p.cows);
      SameQueue(s, p, s', s'.proc.value);
    }
  }

  lemma SameQueue(s: Sys, p: Proc, s': Sys, p': Proc)
    requires QueueHeld(s, p) && s'.disk.walq == s.disk.walq
    requires p'.qSeqNo == p.qSeqNo && p'.qArm == p.qArm && p'.queue == p.queue
    ensures QueueHeld(s', p')
  {
  }

  lemma SameDiskOk(s: Sys, s': Sys)
    requires DiskOk(s) && s'.disk == s.disk && s'.committed == s.committed && s'.born == s.born
    ensures DiskOk(s')
  {
  }

  lemma BeginQueueOk(s: Sys, p: Proc)
    requires DiskOk(s) && QueueHeld(s, p) && p.queue.doing == {} && p.queue.wmark <= p.wmark
    ensures QueueOk(Queue(p.wmark + 1, p.queue.done, p.queue.doing + {p.wmark + 1}))
    ensures s.disk.Wal(p.wmark + 1) == Arms(Absent, Absent)
  {
    hide CowsOn, Readable, Holds, QueueHeld;
    QueueIsSaved(s, p);
    assert p.queue.doing + {p.wmark + 1} == {p.wmark + 1};
  }

  lemma BeginProcOk(s: Sys, p: Proc, s': Sys)
    requires ProcOk(s, p) && Enabled(s, Begin(true)) && s.proc == Some(p) && s' == DoBegin(s, p, true)
    requires CowsOn(s'.disk, s'.committed, {}) && s.disk.Wal(p.wmark + 1) == Arms(Absent, Absent)
    requires Holds(Item(p.qSeqNo + 1, p.qArm.Other(), s'.disk.walq), Some(s'.proc.value.queue))
    requires forall id :: id in p.cows ==> Known(s', id, p.cows[id])
    ensures ProcOk(s', s'.proc.value)
  {
    hide CowsOn, Holds;
  }

  // a queue save touches neither logs nor entities
  lemma SameStore(disk: Disk, disk': Disk)
    requires disk'.wals == disk.wals && disk'.cows == disk.cows
    ensures forall t: Txid :: disk'.Wal(t) == disk.Wal(t)
    ensures forall id :: disk'.Cow(id) == disk.Cow(id)
    ensures WalsReadable(disk) ==> WalsReadable(disk')
    ensures forall born :: UnbornAbsent(disk, born) ==> UnbornAbsent(disk', born)
  {
    if WalsReadable(disk) {
      forall t: Txid ensures Readable(disk'.Wal(t)) {
        assert Readable(disk.Wal(t));
      }
    }
  }

  lemma SameCowsOn(disk: Disk, disk': Disk, committed: map<Eid, Home>, dirty: set<Site>)
    requires disk'.cows == disk.cows && CowsOn(disk, committed, dirty)
    ensures CowsOn(disk', committed, dirty)
  {
    forall id ensures CowOn(disk', committed, dirty, id) {
      assert CowOn(disk, committed, dirty, id);
    }
  }

  // an abort starts from any point of a transaction
  lemma AbortOk(s: Sys, p: Proc, dirt: set<Site>)
    requires QueueHeld(s, p) && p.queue.wmark <= p.wmark
    requires p.aborting == map[] && p.queue.doing == {p.tx.id} && SafeEntries(s.committed, p.tx.entries)
    requires p.cows.Keys <= s.born
    requires forall id :: id in p.cows ==> CowOk(s, p.tx, id, p.cows[id])
    requires CowsOn(s.disk, s.committed, dirt) && dirt <= CleanSet(p.tx.entries)
    ensures ProcOk(s, StartAbort(p))
  {
    hide CowsOn, Holds, QueueHeld;
    var p' := StartAbort(p);
    SameQueue(s, p, s, p');
    CowsMono(s.disk, s.committed, dirt, CleanSet(p.tx.entries));
    SafeClean(s.committed, p.tx.entries);
    OneWal(p'.aborting, p.tx.id);
    forall id | id in p'.cows ensures Known(s, id, p'.cows[id]) {
      assert CowOk(s, p.tx, id, p.cows[id]);
    }
  }

  // one log arm changes, over a store that is clean apart from `dirt`
  lemma WalStepDisk(s: Sys, t: Txid, arm: Arm, slot: Slot<Entries>, dirt: set<Site>)
    requires DiskOk(s) && t <= s.disk.SavedQueue().wmark
    requires slot.Stored? ==> SafeEntries(s.committed, slot.value)
    requires Readable(s.disk.PutWal(t, arm, slot).Wal(t))
    requires CowsOn(s.disk, s.committed, dirt) && dirt <= RecoverSet(s.disk.PutWal(t, arm, slot))
    ensures DiskOk(s.(disk := s.disk.PutWal(t, arm, slot)))
  {
    hide CowsOn, QueueOk, RecoverSet;
    var d := s.disk.PutWal(t, arm, slot);
    SameCowsOn(s.disk, d, s.committed, dirt);
    CowsMono(d, s.committed, dirt, RecoverSet(d));
    forall t': Txid ensures Readable(d.Wal(t')) {
      assert Readable(s.disk.Wal(t'));
    }
    forall t', arm' | t' in d.SavedQueue().doing && d.Wal(t').Get(arm').Stored?
      ensures SafeEntries(s.committed, d.Wal(t').Get(arm').value)
    {
      if t' != t || arm' != arm {
        assert d.Wal(t').Get(arm') == s.disk.Wal(t').Get(arm');
      }
    }
    assert d.SavedQueue() == s.disk.SavedQueue();
    forall t': Txid | t' > d.SavedQueue().wmark ensures d.Wal(t') == Arms(Absent, Absent) {
      assert s.disk.Wal(t') == Arms(Absent, Absent);
    }
    forall id | id !in s.born ensures d.Cow(id) == Arms(Absent, Absent) {
      assert s.disk.Cow(id) == Arms(Absent, Absent);
    }
  }

  lemma WalPut(s: Sys, p: Proc, e: Entries)
    requires WalSaved(s, p, e) || (s.disk.Wal(p.tx.id) == Arms(Absent, Absent))
    requires Readable(s.disk.Wal(p.tx.id))
    ensures var (disk, p') := WithWal(s, p);
      && Readable(disk.Wal(p.tx.id)) && WalSaved(s.(disk := disk), p', p.tx.entries)
  {
  }

  // an entity in memory depends on its own part of the store and of the log
  lemma SameCow(s: Sys, s': Sys, tx: Tx, tx': Tx, id: Eid, c: Cow)
    requires CowOk(s, tx, id, c) && s'.committed == s.committed && s'.disk.Cow(id) == s.disk.Cow(id)
    requires (id in tx.entries) == (id in tx'.entries) && (id in tx.writes) == (id in tx'.writes)
    requires id in tx.entries ==> tx.entries[id] == tx'.entries[id]
    requires id in tx.writes ==> tx.writes[id] == tx'.writes[id]
    ensures CowOk(s', tx', id, c)
  {
  }

  lemma SameCowOk(s: Sys, s': Sys, tx: Tx, tx': Tx, cows: map<Eid, Cow>)
    requires s'.disk.cows == s.disk.cows && s'.committed == s.committed
    requires tx'.entries == tx.entries && tx'.writes == tx.writes
    requires forall id :: id in cows ==> CowOk(s, tx, id, cows[id])
    ensures forall id :: id in cows ==> CowOk(s', tx', id, cows[id])
  {
    hide CowOk;
    forall id | id in cows ensures CowOk(s', tx', id, cows[id]) {
      SameCow(s, s', tx, tx', id, cows[id]);
    }
  }

  // only the store and the committed values matter
  lemma ProcFrame(s: Sys, s': Sys, p: Proc)
    requires ProcOk(s, p) && s'.disk == s.disk && s'.committed == s.committed && s'.born == s.born
    ensures ProcOk(s', p)
  {
    hide Holds, CowsOn;
    if InTx(p.phase) {
      SameCowOk(s, s', p.tx, p.tx, p.cows);
      forall id | id in p.tx.entries ensures CowSaved(s, p, id) == CowSaved(s', p, id) {}
    } else {
      SameKnown(s, s', p.cows);
    }
  }

  lemma StepSaveFirstWal(s: Sys, p: Proc, ok: bool)
    requires Inv(s) && s.proc == Some(p) && Enabled(s, SaveFirstWal(ok))
    ensures Inv(Do(s, SaveFirstWal(ok)))
  {
    hide CowsOn, Holds, QueueHeld, CowOk, QueueOk;
    QueueIsSaved(s, p);
    var s' := Do(s, SaveFirstWal(ok));
    if ok {
      assert Readable(s.disk.Wal(p.tx.id));
      WalPut(s, p, map[]);
      QueueTop(s, p);
      WalStepDisk(s, p.tx.id, p.tx.arm.Other(), Stored(p.tx.seqNo + 1, p.tx.entries), {});
      SameCowOk(s, s', p.tx, s'.proc.value.tx, p.cows);
      SameCowsOn(s.disk, s'.disk, s.committed, {});
      RunningOk(s, p, s', s'.proc.value);
    } else {
      AbortOk(s, p, {});
      ProcFrame(s, s', StartAbort(p));
    }
  }

  lemma QueueTop(s: Sys, p: Proc)
    requires DiskOk(s) && QueueHeld(s, p) && p.queue.doing == {p.tx.id}
    ensures p.tx.id <= s.disk.SavedQueue().wmark && p.tx.id in s.disk.SavedQueue().doing
    ensures s.disk.SavedQueue() == p.queue
  {
    QueueIsSaved(s, p);
  }

  // into the phases where nothing of the transaction is in the store yet
  lemma RunningOk(s: Sys, p: Proc, s': Sys, p': Proc)
    requires QueueHeld(s, p) && s'.disk.walq == s.disk.walq
    requires p'.qSeqNo == p.qSeqNo && p'.qArm == p.qArm && p'.queue == p.queue
    requires p'.wmark == p.wmark && p.queue.wmark <= p.wmark
    requires p'.phase.Running? || p'.phase.SavingWal?
    requires p'.cows.Keys <= s'.born && forall id :: id in p'.cows ==> CowOk(s', p'.tx, id, p'.cows[id])
    requires CowsOn(s'.disk, s'.committed, {})
    requires p'.aborting == map[] && p'.queue.doing == {p'.tx.id} && EntriesOk(s', p')
    requires WalSaved(s', p', map[]) && NewAbsent(s', p')
    ensures ProcOk(s', p')
  {
    hide CowsOn, Holds, QueueHeld, CowOk;
    SameQueue(s, p, s', p');
  }

  lemma StepCreate(s: Sys, p: Proc, id: Eid, v: Inner)
    requires Inv(s) && s.proc == Some(p) && Enabled(s, Create(id, v))
    ensures Inv(DoCreate(s, p, id, v))
  {
    hide CowsOn, Holds, QueueHeld, QueueOk, WalsSafe, NoFutureWals, RecoverSet, WalsReadable, CowOk, Readable;
    hide WalSaved;
    var s' := DoCreate(s, p, id, v);
    var p' := s'.proc.value;
    assert id !in p.cows && id !in s.committed && id !in p.tx.entries;
    forall i | i in p'.cows ensures CowOk(s', p'.tx, i, p'.cows[i]) {
      if i != id {
        SameCow(s, s', p.tx, p'.tx, i, p.cows[i]);
      } else {
        CreatedCow(s', p'.tx, id, v);
      }
    }
    SameWalSaved(s, p, s', p', map[]);
    RunningOk(s, p, s', p');
  }

  lemma CreatedCow(s: Sys, tx: Tx, id: Eid, v: Inner)
    requires id !in s.committed && id in tx.entries && tx.entries[id] == Entry(New, Right)
    requires id in tx.writes && tx.writes[id] == v
    ensures CowOk(s, tx, id, Cow(0, Right, v, None, Some(New)))
  {
  }

  lemma SameWalSaved(s: Sys, p: Proc, s': Sys, p': Proc, e: Entries)
    requires WalSaved(s, p, e) && s'.disk.wals == s.disk.wals
    requires p'.tx.id == p.tx.id && p'.tx.seqNo == p.tx.seqNo && p'.tx.arm == p.tx.arm
    ensures WalSaved(s', p', e)
  {
  }

  lemma StepModify(s: Sys, p: Proc, id: Eid, v: Inner)
    requires Inv(s) && s.proc == Some(p) && Enabled(s, Modify(id, v))
    ensures Inv(DoModify(s, p, id, v))
  {
    hide CowsOn, Holds, QueueHeld, QueueOk, CowOk, Readable, WalSaved, DiskOk, EntriesOk, NewAbsent;
    var s' := DoModify(s, p, id, v);
    var p' := s'.proc.value;
    ModifyEntries(s, p, id, v, s', p');
    forall i | i in p'.cows ensures CowOk(s', p'.tx, i, p'.cows[i]) {
      if i != id {
        SameCow(s, s', p.tx, p'.tx, i, p.cows[i]);
      }
    }
    SameWalSaved(s, p, s', p', map[]);
    RunningOk(s, p, s', p');
    SameDiskOk(s, s');
  }

  lemma ModifyEntries(s: Sys, p: Proc, id: Eid, v: Inner, s': Sys, p': Proc)
    requires EntriesOk(s, p) && NewAbsent(s, p) && id in p.cows && CowOk(s, p.tx, id, p.cows[id])
    requires s' == DoModify(s, p, id, v) && s'.proc == Some(p')
    ensures EntriesOk(s', p') && NewAbsent(s', p') && CowOk(s', p'.tx, id, p'.cows[id])
  {
    hide CowOk, Known, CowOn;
    ModifiedCow(s, p, id, v);
  }

  lemma ModifiedCow(s: Sys, p: Proc, id: Eid, v: Inner)
    requires id in p.cows && CowOk(s, p.tx, id, p.cows[id])
    requires id in p.tx.entries ==> p.cows[id].action == Some(p.tx.entries[id].action)
    ensures var s' := DoModify(s, p, id, v); var p' := s'.proc.value;
      && CowOk(s', p'.tx, id, p'.cows[id])
      && p'.cows[id].action == Some(p'.tx.entries[id].action)
      && (p'.tx.entries[id].action == Update ==>
            id in s.committed ==> p'.tx.entries[id].arm == s.committed[id].arm.Other())
      && (p'.tx.entries[id].action == New ==> p'.tx.entries == p.tx.entries)
  {
  }

  // nothing is dirty but what a transaction's log or a pending abort names
  lemma DirtNamed(s: Sys, p: Proc, site: Site)
    requires ProcOk(s, p) && !IsCold(p.phase) && site in Dirt(p)
    ensures if InTx(p.phase) then site.id in p.cows && site in CleanSet(p.tx.entries) else site in AllOf(p.aborting)
  {
    hide Holds, QueueHeld, CowsOn, CowOk, Known, SafeEntries, AllOf;
  }

  /** What a load gives, if the arm it comes from is not dirty: the committed version
      of a committed entity. */
  lemma CleanLoad(disk: Disk, committed: map<Eid, Home>, dirty: set<Site>, id: Eid)
    requires CowsOn(disk, committed, dirty)
    requires var l := LoadItem(disk.Cow(id)); l.Loaded? ==> Site(id, l.arm) !in dirty
    ensures var l := LoadItem(disk.Cow(id));
      if id in committed then
        && l.Loaded? && l.arm == committed[id].arm && l.value == committed[id].inner
        && disk.Cow(id).Get(l.arm).Stored? && l.seqNo == disk.Cow(id).Get(l.arm).seqNo
      else l == NotFound
  {
    assert CowOn(disk, committed, dirty, id);
  }

  // loaded with care, an entity is committed or loose
  lemma LoadKnown(s: Sys, p: Proc, id: Eid, c: Cow)
    requires ProcOk(s, p) && s.proc == Some(p) && Enabled(s, LoadCow(id)) && Careful(s, LoadCow(id))
    requires var l := LoadItem(s.disk.Cow(id)); c == Cow(l.seqNo, l.arm, l.value, None, None)
    ensures Known(s, id, c)
  {
    hide Holds, QueueHeld, CowOk, SafeEntries, SafeSet, AllOf, CleanSet, CowsOn;
    var l := LoadItem(s.disk.Cow(id));
    if id in s.committed {
      if Site(id, l.arm) in Dirt(p) {
        DirtNamed(s, p, Site(id, l.arm));
      }
      CleanLoad(s.disk, s.committed, Dirt(p), id);
    }
  }

  lemma StepLoadCow(s: Sys, p: Proc, id: Eid)
    requires Inv(s) && s.proc == Some(p) && Enabled(s, LoadCow(id)) && Careful(s, LoadCow(id))
    ensures Inv(Do(s, LoadCow(id)))
  {
    hide Holds, QueueHeld, QueueOk, WalsSafe, NoFutureWals, RecoverSet, WalsReadable, UnbornAbsent, CowsOn;
    hide CowOk, Known, SafeEntries, SafeSet, AllOf, DiskOk, CowSaved, WalSaved;
    var s' := Do(s, LoadCow(id));
    ProcFrame(s, s', p);
    SameDiskOk(s, s');
    var p' := s'.proc.value;
    SameQueue(s', p, s', p');
    LoadKnown(s, p, id, p'.cows[id]);
    LoadedBorn(s, id);
    LoadedCow(s, s', p.tx, id, p'.cows[id]);
    if InTx(p.phase) {
      SameWals(s', p, p');
      if p.phase.SavingCows? {
        EvictSaved(s', p, p', p.phase.unsaved);
      } else if p.phase.Committing? {
        EvictSaved(s', p, p', {});
      }
    }
  }

  lemma LoadedBorn(s: Sys, id: Eid)
    requires DiskOk(s) && LoadItem(s.disk.Cow(id)).Loaded?
    ensures id in s.born
  {
    hide CowsOn, QueueOk, WalsSafe, NoFutureWals, WalsReadable;
  }

  lemma LoadedCow(s: Sys, s': Sys, tx: Tx, id: Eid, c: Cow)
    requires Known(s, id, c) && c.action.None? && s'.disk == s.disk && s'.committed == s.committed
    ensures Known(s', id, c) && (id !in tx.entries ==> CowOk(s', tx, id, c))
  {
  }

  lemma StepEvict(s: Sys, p: Proc, id: Eid)
    requires Inv(s) && s.proc == Some(p) && Enabled(s, Evict(id))
    ensures Inv(Do(s, Evict(id)))
  {
    hide Holds, QueueHeld, QueueOk, WalsSafe, NoFutureWals, RecoverSet, WalsReadable, UnbornAbsent, CowsOn;
    hide CowOk, Known, SafeEntries, SafeSet, AllOf;
    var s' := s.(proc := Some(p.(cows := p.cows - {id})));
    ProcFrame(s, s', p);
    var p' := s'.proc.value;
    SameQueue(s', p, s', p');
    if InTx(p.phase) {
      SameWals(s', p, p');
      forall i | i in p.tx.entries ensures i in p'.cows && p'.cows[i] == p.cows[i] {
      }
      if p.phase.SavingCows? {
        EvictSaved(s', p, p', p.phase.unsaved);
      } else if p.phase.Committing? {
        EvictSaved(s', p, p', {});
      }
    }
  }

  lemma SameWals(s: Sys, p: Proc, p': Proc)
    requires p'.tx == p.tx
    ensures forall e :: WalSaved(s, p', e) == WalSaved(s, p, e)
  {
  }

  lemma EvictSaved(s: Sys, p: Proc, p': Proc, unsaved: set<Eid>)
    requires p.tx.entries.Keys == p.tx.writes.Keys <= p.cows.Keys && SavedOutside(s, p, unsaved)
    requires p'.tx == p.tx && p.tx.entries.Keys <= p'.cows.Keys
    requires forall id :: id in p.tx.entries ==> p'.cows[id] == p.cows[id]
    ensures SavedOutside(s, p', unsaved)
  {
    forall id | id in p'.tx.entries && id !in unsaved ensures CowSaved(s, p', id) {
      assert CowSaved(s, p, id);
    }
  }

  lemma StepCommit(s: Sys, p: Proc)
    requires Inv(s) && s.proc == Some(p) && Enabled(s, Commit)
    ensures Inv(Do(s, Commit))
  {
    hide Holds, QueueHeld, QueueOk, WalsSafe, NoFutureWals, RecoverSet, WalsReadable, UnbornAbsent, CowsOn, CowOk;
    var s' := s.(proc := Some(p.(phase := SavingWal)));
    var p' := s'.proc.value;
    SameCowOk(s, s', p.tx, p.tx, p.cows);
    SameWalSaved(s, p, s', p', map[]);
    RunningOk(s, p, s', p');
  }

  lemma StepGiveUp(s: Sys, p: Proc)
    requires Inv(s) && s.proc == Some(p) && Enabled(s, GiveUp)
    ensures Inv(Do(s, GiveUp))
  {
    hide Holds, QueueHeld, QueueOk, WalsSafe, NoFutureWals, RecoverSet, WalsReadable, UnbornAbsent, CowsOn, CowOk;
    AbortOk(s, p, {});
    ProcFrame(s, Do(s, GiveUp), StartAbort(p));
  }

  lemma StepSaveWal(s: Sys, p: Proc, ok: bool)
    requires Inv(s) && s.proc == Some(p) && Enabled(s, SaveWal(ok))
    ensures Inv(Do(s, SaveWal(ok)))
  {
    hide CowsOn, Holds, QueueHeld, CowOk, QueueOk, Readable, WalSaved;
    var s' := Do(s, SaveWal(ok));
    if ok {
      assert Readable(s.disk.Wal(p.tx.id));
      WalPut(s, p, map[]);
      QueueTop(s, p);
      WalStepDisk(s, p.tx.id, p.tx.arm.Other(), Stored(p.tx.seqNo + 1, p.tx.entries), {});
      SameCowOk(s, s', p.tx, s'.proc.value.tx, p.cows);
      SameCowsOn(s.disk, s'.disk, s.committed, {});
      CowsMono(s'.disk, s.committed, {}, CleanSet(p.tx.entries));
      SameWalSaved(s.(disk := s'.disk), WithWal(s, p).1, s', s'.proc.value, p.tx.entries);
      SavingCowsStart(s, p, s', s'.proc.value);
    } else {
      AbortOk(s, p, {});
      ProcFrame(s, s', StartAbort(p));
    }
  }

  lemma SavingCowsStart(s: Sys, p: Proc, s': Sys, p': Proc)
    requires QueueHeld(s, p) && s'.disk.walq == s.disk.walq && s'.disk.cows == s.disk.cows
    requires s'.committed == s.committed && s'.born == s.born
    requires p'.qSeqNo == p.qSeqNo && p'.qArm == p.qArm && p'.queue == p.queue
    requires p'.wmark == p.wmark && p.queue.wmark <= p.wmark && p'.cows == p.cows
    requires p'.phase == SavingCows(p'.tx.entries.Keys)
    requires p'.tx.id == p.tx.id && p'.tx.entries == p.tx.entries && p'.tx.writes == p.tx.writes
    requires p'.cows.Keys <= s'.born && forall id :: id in p'.cows ==> CowOk(s', p'.tx, id, p'.cows[id])
    requires CowsOn(s'.disk, s'.committed, CleanSet(p'.tx.entries))
    requires p'.aborting == map[] && p'.queue.doing == {p'.tx.id} && EntriesOk(s, p)
    requires WalSaved(s', p', p'.tx.entries) && NewAbsent(s, p)
    ensures ProcOk(s', p')
  {
    hide CowsOn, Holds, QueueHeld, CowOk, WalSaved;
    SameQueue(s, p, s', p');
  }

  // while the transaction saves its entities, recovery would delete its traces
  lemma RecoverTx(s: Sys, p: Proc)
    requires DiskOk(s) && QueueHeld(s, p) && p.queue.doing == {p.tx.id} && WalSaved(s, p, p.tx.entries)
    ensures RecoverSet(s.disk) == CleanSet(p.tx.entries)
  {
    hide CowsOn, Holds, QueueHeld, QueueOk, RecoverSet, WalSaved;
    QueueTop(s, p);
    assert Readable(s.disk.Wal(p.tx.id));
    WalIsSaved(s, p, p.tx.entries);
    RecoverOne(s.disk, p.tx.id);
  }

  lemma CowPut(disk: Disk, committed: map<Eid, Home>, dirty: set<Site>, id: Eid, arm: Arm, slot: Slot<Inner>)
    requires CowsOn(disk, committed, dirty) && Site(id, arm) in dirty && !slot.Unreadable?
    requires id in committed ==> arm == committed[id].arm.Other()
    requires id in committed && slot.Stored? && disk.Cow(id).Get(arm.Other()).Stored? ==>
      slot.seqNo != disk.Cow(id).Get(arm.Other()).seqNo
    ensures CowsOn(disk.PutCow(id, arm, slot), committed, dirty)
  {
    var d := disk.PutCow(id, arm, slot);
    forall i ensures CowOn(d, committed, dirty, i) {
      assert CowOn(disk, committed, dirty, i);
    }
  }

  lemma SameRecover(disk: Disk, disk': Disk)
    requires disk'.walq == disk.walq && disk'.wals == disk.wals
    ensures RecoverSet(disk') == RecoverSet(disk)
  {
    assert forall t: Txid :: disk'.SavedWal(t) == disk.SavedWal(t);
  }

  // only entities change, in the store and as the queue sees it
  lemma CowStepDisk(s: Sys, disk: Disk)
    requires DiskOk(s) && disk.walq == s.disk.walq && disk.wals == s.disk.wals
    requires CowsOn(disk, s.committed, RecoverSet(s.disk)) && UnbornAbsent(disk, s.born)
    ensures DiskOk(s.(disk := disk))
  {
    hide CowsOn, QueueOk, RecoverSet, UnbornAbsent;
    SameRecover(s.disk, disk);
    assert disk.SavedQueue() == s.disk.SavedQueue();
    forall t: Txid ensures disk.Wal(t) == s.disk.Wal(t) {}
    forall t: Txid ensures Readable(disk.Wal(t)) {
      assert Readable(s.disk.Wal(t));
    }
  }

  lemma TargetOk(s: Sys, p: Proc, id: Eid)
    requires id in p.tx.entries && id in p.cows && CowOk(s, p.tx, id, p.cows[id])
    ensures var c := p.cows[id];
      && Target(c) == p.tx.entries[id].arm && Site(id, Target(c)) in CleanSet(p.tx.entries)
      && id in p.tx.writes && NewValue(c) == p.tx.writes[id]
      && (id in s.committed ==> Target(c) == s.committed[id].arm.Other() && c.action == Some(Update))
      && (c.action == Some(Update) ==> c.arm == Target(c).Other() && Site(id, c.arm) !in CleanSet(p.tx.entries))
      && (id in s.committed ==> var home := s.disk.Cow(id).Get(c.arm); home.Stored? && home.seqNo <= c.seqNo)
      && (c.action == Some(Update) <==> p.tx.entries[id].action == Update)
  {
  }

  // an uncommitted entity has nothing in an arm that is not dirty
  lemma UncommittedClean(disk: Disk, committed: map<Eid, Home>, dirty: set<Site>, id: Eid, arm: Arm)
    requires CowsOn(disk, committed, dirty) && id !in committed && Site(id, arm) !in dirty
    ensures disk.Cow(id).Get(arm).Absent?
  {
    assert CowOn(disk, committed, dirty, id);
  }

  lemma SaveCowOk(s: Sys, p: Proc, id: Eid, slot: Slot<Inner>, s': Sys, p': Proc)
    requires id in p.tx.entries && id in p.cows && CowOk(s, p.tx, id, p.cows[id])
    requires s'.disk == s.disk.PutCow(id, Target(p.cows[id]), slot) && s'.committed == s.committed
    requires p'.tx == p.tx && p'.cows == p.cows[id := p.cows[id].(seqNo := p.cows[id].seqNo + 1)]
    ensures CowOk(s', p.tx, id, p'.cows[id])
  {
  }

  lemma SaveCowsOk(s: Sys, p: Proc, id: Eid, slot: Slot<Inner>, s': Sys, p': Proc)
    requires id in p.tx.entries && id in p.cows
    requires forall i :: i in p.cows ==> CowOk(s, p.tx, i, p.cows[i])
    requires s'.disk == s.disk.PutCow(id, Target(p.cows[id]), slot) && s'.committed == s.committed
    requires p'.tx == p.tx && p'.cows == p.cows[id := p.cows[id].(seqNo := p.cows[id].seqNo + 1)]
    ensures forall i :: i in p'.cows ==> CowOk(s', p'.tx, i, p'.cows[i])
  {
    hide CowOk;
    forall i | i in p'.cows ensures CowOk(s', p'.tx, i, p'.cows[i]) {
      if i == id {
        SaveCowOk(s, p, id, slot, s', p');
      } else {
        SameCow(s, s', p.tx, p.tx, i, p.cows[i]);
      }
    }
  }

  lemma SavePutDisk(s: Sys, p: Proc, id: Eid, slot: Slot<Inner>)
    requires DiskOk(s) && ProcOk(s, p) && p.phase.SavingCows? && id in p.phase.unsaved && id in p.cows
    requires slot.Absent? || (slot.Stored? && slot.seqNo == p.cows[id].seqNo + 1)
    ensures var d := s.disk.PutCow(id, Target(p.cows[id]), slot);
      DiskOk(s.(disk := d)) && CowsOn(d, s.committed, CleanSet(p.tx.entries))
  {
    hide CowsOn, Holds, QueueHeld, CowOk, QueueOk, RecoverSet, WalSaved, NewAlone, SavedOutside, WalsSafe, NoFutureWals, WalsReadable;
    RecoverTx(s, p);
    TargetOk(s, p, id);
    CowPut(s.disk, s.committed, CleanSet(p.tx.entries), id, Target(p.cows[id]), slot);
    var d := s.disk.PutCow(id, Target(p.cows[id]), slot);
    forall i | i !in s.born ensures d.Cow(i) == Arms(Absent, Absent) {
      assert s.disk.Cow(i) == Arms(Absent, Absent);
    }
    CowStepDisk(s, d);
  }

  lemma StepSaveCowBad(s: Sys, p: Proc, id: Eid, outcome: Outcome)
    requires Inv(s) && s.proc == Some(p) && Enabled(s, SaveCow(id, outcome)) && outcome != Saved
    ensures Inv(DoSaveCow(s, p, id, outcome))
  {
    hide CowsOn, Holds, QueueHeld, CowOk, QueueOk, RecoverSet, WalSaved, NewAlone, SavedOutside, WalsSafe, NoFutureWals, WalsReadable;
    hide UnbornAbsent;
    var c := p.cows[id];
    var p' := p.(cows := p.cows[id := c.(seqNo := c.seqNo + 1)]);
    var slot := if outcome.Untouched? then s.disk.Cow(id).Get(Target(c)) else Absent;
    var s1 := s.(disk := s.disk.PutCow(id, Target(c), slot));
    SaveCowsOk(s, p, id, slot, s1, p');
    SameQueue(s, p, s1, p');
    SameQueue(s, p, s, p');
    var s' := DoSaveCow(s, p, id, outcome);
    if outcome.Untouched? {
      PutSame(s.disk, id, Target(c));
      forall i | i in p'.cows ensures CowOk(s, p'.tx, i, p'.cows[i]) {
        SameCow(s1, s, p'.tx, p'.tx, i, p'.cows[i]);
      }
      AbortOk(s, p', CleanSet(p.tx.entries));
      ProcFrame(s, s', StartAbort(p'));
      SameDiskOk(s, s');
    } else {
      SavePutDisk(s, p, id, slot);
      AbortOk(s1, p', CleanSet(p.tx.entries));
      ProcFrame(s1, s', StartAbort(p'));
      SameDiskOk(s1, s');
    }
  }

  lemma PutSame(disk: Disk, id: Eid, arm: Arm)
    ensures forall i :: disk.PutCow(id, arm, disk.Cow(id).Get(arm)).Cow(i) == disk.Cow(i)
  {
  }

  lemma StepSaveCowGood(s: Sys, p: Proc, id: Eid)
    requires Inv(s) && s.proc == Some(p) && Enabled(s, SaveCow(id, Saved))
    ensures Inv(DoSaveCow(s, p, id, Saved))
  {
    hide CowsOn, Holds, QueueHeld, CowOk, QueueOk, RecoverSet, WalSaved, WalsSafe, NoFutureWals, WalsReadable;
    hide UnbornAbsent, NewAlone, SavedOutside, SafeEntries, Readable, CowSaved;
    var c := p.cows[id];
    var slot := Stored(c.seqNo + 1, NewValue(c));
    var s' := DoSaveCow(s, p, id, Saved);
    var p' := s'.proc.value;
    TargetOk(s, p, id);
    SavePutDisk(s, p, id, slot);
    SameDiskOk(s.(disk := s'.disk), s');
    SaveCowsOk(s, p, id, slot, s', p');
    SameQueue(s, p, s', p');
    SameWalSaved(s, p, s', p', p.tx.entries);
    SaveOutside(s, p, id, s', p');
  }

  lemma SaveOutside(s: Sys, p: Proc, id: Eid, s': Sys, p': Proc)
    requires id in p.tx.entries && p.tx.entries.Keys == p.tx.writes.Keys <= p.cows.Keys
    requires p.phase.SavingCows? && CowOk(s, p.tx, id, p.cows[id])
    requires CowsOn(s.disk, s.committed, CleanSet(p.tx.entries))
    requires NewAlone(s, p) && SavedOutside(s, p, p.phase.unsaved)
    requires s' == DoSaveCow(s, p, id, Saved) && s'.proc == Some(p')
    ensures NewAlone(s', p') && SavedOutside(s', p', p.phase.unsaved - {id})
  {
    hide CowOk, CowsOn, CleanSet;
    TargetOk(s, p, id);
    if id !in s.committed && p.cows[id].action == Some(Update) {
      UncommittedClean(s.disk, s.committed, CleanSet(p.tx.entries), id, p.cows[id].arm);
    }
    forall i | i in p'.tx.entries && i !in p.phase.unsaved - {id} ensures CowSaved(s', p', i) {
      if i != id {
        assert CowSaved(s, p, i);
      }
    }
  }

  lemma StepCowsSaved(s: Sys, p: Proc)
    requires Inv(s) && s.proc == Some(p) && Enabled(s, CowsSaved)
    ensures Inv(Do(s, CowsSaved))
  {
    hide CowsOn, Holds, QueueHeld, CowOk, QueueOk, RecoverSet, WalSaved, WalsSafe, NoFutureWals, WalsReadable;
    hide UnbornAbsent, NewAlone;
    var s' := Do(s, CowsSaved);
    ProcFrame(s, s', p);
    var p' := s'.proc.value;
    SameQueue(s', p, s', p');
    SameWals(s', p, p');
    EvictSaved(s', p, p', {});
    assert NewAlone(s', p) ==> NewAlone(s', p') by { SameAlone(s', p, p'); }
  }

  lemma SameAlone(s: Sys, p: Proc, p': Proc)
    requires p'.tx == p.tx
    ensures NewAlone(s, p) == NewAlone(s, p')
  {
  }

  lemma StepCommitFail(s: Sys, p: Proc)
    requires Inv(s) && s.proc == Some(p) && p.phase.Committing?
    ensures Inv(s.(proc := Some(StartAbort(p))))
  {
    hide Holds, QueueHeld, QueueOk, WalsSafe, NoFutureWals, RecoverSet, WalsReadable, UnbornAbsent, CowsOn, CowOk, WalSaved, NewAlone, SavedOutside;
    AbortOk(s, p, CleanSet(p.tx.entries));
    ProcFrame(s, s.(proc := Some(StartAbort(p))), StartAbort(p));
  }

  lemma RecycleDisk(s: Sys, p: Proc, arm: Arm)
    requires DiskOk(s) && ProcOk(s, p) && p.phase.Committing? && |p.queue.done| >= COMMITTED_QUEUE_SIZE
    ensures p.queue.done[0] != p.tx.id
    ensures DiskOk(s.(disk := s.disk.PutWal(p.queue.done[0], arm, Absent)))
  {
    hide CowsOn, Holds, QueueHeld, CowOk, RecoverSet, WalSaved, WalsSafe, NoFutureWals, UnbornAbsent, NewAlone, SavedOutside;
    QueueTop(s, p);
    RecoverTx(s, p);
    var t := p.queue.done[0];
    assert t in p.queue.done;
    var d := s.disk.PutWal(t, arm, Absent);
    assert d.SavedWal(p.tx.id) == s.disk.SavedWal(p.tx.id);
    assert d.SavedQueue() == s.disk.SavedQueue();
    RecoverOne(d, p.tx.id);
    RecoverOne(s.disk, p.tx.id);
    assert Readable(s.disk.Wal(t));
    WalStepDisk(s, t, arm, Absent, CleanSet(p.tx.entries));
  }

  // the store changes in another transaction's log only
  lemma OtherWal(s: Sys, p: Proc, s': Sys)
    requires ProcOk(s, p) && p.phase.Committing? && s'.committed == s.committed && s'.born == s.born
    requires s'.disk.walq == s.disk.walq && s'.disk.cows == s.disk.cows
    requires s'.disk.Wal(p.tx.id) == s.disk.Wal(p.tx.id)
    ensures ProcOk(s', p)
  {
    hide CowsOn, Holds, CowOk, CowSaved;
    SameCowsOn(s.disk, s'.disk, s.committed, Dirt(p));
    SameCowOk(s, s', p.tx, p.tx, p.cows);
    forall id | id in p.tx.entries ensures CowSaved(s', p, id) {
      assert CowSaved(s, p, id);
      SameCowSaved(s, s', p, id);
    }
  }

  lemma SameCowSaved(s: Sys, s': Sys, p: Proc, id: Eid)
    requires id in p.tx.entries && id in p.tx.writes && id in p.cows && CowSaved(s, p, id)
    requires s'.disk.cows == s.disk.cows && s'.committed == s.committed
    ensures CowSaved(s', p, id)
  {
  }

  lemma StepRecycleDel(s: Sys, p: Proc, arm: Arm)
    requires Inv(s) && s.proc == Some(p) && Enabled(s, RecycleDel(arm))
    ensures Inv(Do(s, RecycleDel(arm)))
  {
    hide ProcOk, DiskOk;
    RecycleDisk(s, p, arm);
    OtherWal(s, p, Do(s, RecycleDel(arm)));
  }

  lemma CommittedCow(s: Sys, p: Proc, id: Eid)
    requires p.tx.entries.Keys == p.tx.writes.Keys <= p.cows.Keys
    requires CowOn(s.disk, s.committed, CleanSet(p.tx.entries), id)
    requires NewAlone(s, p) && SavedOutside(s, p, {})
    requires forall i :: i in p.cows ==> CowOk(s, p.tx, i, p.cows[i])
    requires forall i :: i in p.tx.entries ==> p.cows[i].action == Some(p.tx.entries[i].action)
    ensures CowOn(s.disk, CommitHomes(s.committed, p.tx), {}, id)
  {
    if id in p.tx.entries {
      assert CowSaved(s, p, id);
      assert CowOk(s, p.tx, id, p.cows[id]);
    }
  }

  lemma CompletedCow(s: Sys, p: Proc, s': Sys, id: Eid)
    requires p.tx.entries.Keys == p.tx.writes.Keys <= p.cows.Keys && id in p.cows
    requires CowOk(s, p.tx, id, p.cows[id]) && SavedOutside(s, p, {})
    requires s'.disk.cows == s.disk.cows && s'.committed == CommitHomes(s.committed, p.tx)
    ensures Known(s', id, CompleteCow(p.cows[id]))
  {
    if id in p.tx.entries {
      assert CowSaved(s, p, id);
    }
  }

  /** Retiring keeps the newest transaction of a full queue. */
  lemma {:induction false} RetireShort(done: seq<Txid>)
    ensures Retire(done) == if |done| < COMMITTED_QUEUE_SIZE then done else done[|done| - 1..]
    ensures forall t :: t in Retire(done) ==> t in done
    decreases |done|
  {
    if |done| >= COMMITTED_QUEUE_SIZE {
      RetireShort(done[1..]);
    }
  }

  lemma CommitQueueOk(s: Sys, p: Proc)
    requires DiskOk(s) && QueueHeld(s, p) && p.queue.doing == {p.tx.id} && p.queue.wmark <= p.wmark
    ensures var q := Committed(p.queue, p.wmark, p.tx.id); QueueOk(q) && q.doing == {}
  {
    hide CowsOn, Holds, QueueHeld, RecoverSet, WalsSafe, NoFutureWals, UnbornAbsent, WalsReadable;
    QueueTop(s, p);
    RetireShort(p.queue.done);
  }

  lemma StepSaveCommit(s: Sys, p: Proc)
    requires Inv(s) && s.proc == Some(p) && Enabled(s, SaveCommit(true))
    ensures Inv(DoSaveCommit(s, p, true))
  {
    hide CowsOn, Holds, QueueHeld, CowOk, QueueOk, RecoverSet, WalSaved, WalsSafe, NoFutureWals, WalsReadable, Known;
    hide UnbornAbsent, NewAlone, SavedOutside, CowOn, Readable;
    var s' := DoSaveCommit(s, p, true);
    CommitQueueOk(s, p);
    CommitCows(s, p);
    QueueStepDisk(s, p, Committed(p.queue, p.wmark, p.tx.id), s');
    AllOfNone();
    forall id | id in p.cows ensures Known(s', id, CompleteCow(p.cows[id])) {
      CompletedCow(s, p, s', id);
    }
    HeldAfterSave(s', s'.proc.value);
  }

  lemma CommitCows(s: Sys, p: Proc)
    requires ProcOk(s, p) && p.phase.Committing?
    ensures CowsOn(s.disk, CommitHomes(s.committed, p.tx), {})
  {
    hide CowOn, CowOk, QueueHeld, WalSaved, NewAlone, SavedOutside;
    forall id ensures CowOn(s.disk, CommitHomes(s.committed, p.tx), {}, id) {
      assert CowOn(s.disk, s.committed, CleanSet(p.tx.entries), id);
      CommittedCow(s, p, id);
    }
  }

  lemma HeldAfterSave(s: Sys, p: Proc)
    requires Holds(Item(p.qSeqNo, p.qArm, s.disk.walq), Some(p.queue))
    ensures QueueHeld(s, p)
  {
  }

  lemma StepRedo(s: Sys, p: Proc)
    requires Inv(s) && s.proc == Some(p) && Enabled(s, Redo)
    ensures Inv(Do(s, Redo))
  {
    hide CowsOn, Holds, QueueHeld, QueueOk, RecoverSet, WalsSafe, NoFutureWals, WalsReadable, UnbornAbsent, Known, SafeEntries;
    hide SafeSet, AllOf;
    var s' := Do(s, Redo);
    SafeAll(s.committed, p.aborting);
    SameQueue(s, p, s', s'.proc.value);
    SameKnown(s, s', p.cows);
  }

  // deleting sites that are safe to delete
  lemma DeleteDisk(s: Sys, gone: set<Site>)
    requires DiskOk(s) && SafeSet(s.committed, gone)
    ensures DiskOk(s.(disk := s.disk.Delete(gone)))
  {
    hide CowsOn, QueueOk, RecoverSet, WalsSafe, NoFutureWals, WalsReadable;
    CowsDelete(s.disk, s.committed, RecoverSet(s.disk), gone);
    var d := s.disk.Delete(gone);
    CowsMono(d, s.committed, RecoverSet(s.disk) - gone, RecoverSet(s.disk));
    forall id | id !in s.born ensures d.Cow(id) == Arms(Absent, Absent) {
      assert s.disk.Cow(id) == Arms(Absent, Absent);
    }
    CowStepDisk(s, d);
  }

  lemma DeleteKnown(s: Sys, s': Sys, gone: set<Site>, cows: map<Eid, Cow>)
    requires SafeSet(s.committed, gone) && s'.disk == s.disk.Delete(gone) && s'.committed == s.committed
    requires forall id :: id in cows ==> Known(s, id, cows[id])
    ensures forall id :: id in cows ==> Known(s', id, cows[id])
  {
    forall id | id in cows ensures Known(s', id, cows[id]) {
      assert Known(s, id, cows[id]);
      assert SafeSite(s.committed, Site(id, cows[id].arm)) || Site(id, cows[id].arm) !in gone;
    }
  }

  lemma StepCleanDel(s: Sys, p: Proc, site: Site)
    requires Inv(s) && s.proc == Some(p) && Enabled(s, CleanDel(site))
    ensures Inv(Do(s, CleanDel(site)))
  {
    hide CowsOn, Holds, QueueHeld, QueueOk, RecoverSet, WalsSafe, NoFutureWals, WalsReadable, UnbornAbsent, Known, SafeEntries;
    hide AllOf;
    var s' := Do(s, CleanDel(site));
    DeleteDisk(s, {site});
    SameDiskOk(s.(disk := s'.disk), s');
    CowsDelete(s.disk, s.committed, p.phase.todo, {site});
    DeleteKnown(s, s', {site}, p.cows);
    SameQueue(s, p, s', s'.proc.value);
  }

  lemma StepCleanFail(s: Sys, p: Proc, gone: set<Site>)
    requires Inv(s) && s.proc == Some(p) && Enabled(s, CleanFail(gone))
    ensures Inv(Do(s, CleanFail(gone)))
  {
    hide CowsOn, Holds, QueueHeld, QueueOk, RecoverSet, WalsSafe, NoFutureWals, WalsReadable, UnbornAbsent, Known, SafeEntries;
    hide AllOf;
    var s' := Do(s, CleanFail(gone));
    DeleteDisk(s, gone);
    SameDiskOk(s.(disk := s'.disk), s');
    if !p.phase.mode.ColdRedo? {
      CowsDelete(s.disk, s.committed, p.phase.todo, gone);
      CowsMono(s'.disk, s.committed, p.phase.todo - gone, AllOf(p.aborting));
      DeleteKnown(s, s', gone, p.cows);
      SameQueue(s, p, s', s'.proc.value);
    }
  }

  lemma StepCleanDone(s: Sys, p: Proc)
    requires Inv(s) && s.proc == Some(p) && Enabled(s, CleanDone)
    ensures Inv(Do(s, CleanDone))
  {
    hide CowsOn, Holds, QueueHeld, QueueOk, RecoverSet, WalsSafe, NoFutureWals, WalsReadable, UnbornAbsent, Known, SafeEntries;
    hide AllOf;
    var s' := Do(s, CleanDone);
    SameKnown(s, s', p.cows);
    SameQueue(s, p, s', s'.proc.value);
  }

  lemma WalGone(s: Sys, t: Txid, arm: Arm)
    requires DiskOk(s) && t <= s.disk.SavedQueue().wmark && CowsOn(s.disk, s.committed, {})
    ensures var s' := s.(disk := s.disk.PutWal(t, arm, Absent));
      DiskOk(s') && CowsOn(s'.disk, s'.committed, {}) && s'.disk.SavedQueue() == s.disk.SavedQueue()
  {
    hide CowsOn, QueueOk, RecoverSet, WalsSafe, NoFutureWals, UnbornAbsent;
    assert Readable(s.disk.Wal(t));
    WalStepDisk(s, t, arm, Absent, {});
    SameCowsOn(s.disk, s.disk.PutWal(t, arm, Absent), s.committed, {});
  }

  lemma StepRemoveWal(s: Sys, p: Proc, arms: set<Arm>, ok: bool)
    requires Inv(s) && s.proc == Some(p) && Enabled(s, RemoveWal(arms, ok))
    ensures Inv(DoRemoveWal(s, p, arms, ok))
  {
    hide CowsOn, Holds, QueueHeld, QueueOk, RecoverSet, WalsSafe, NoFutureWals, WalsReadable, UnbornAbsent, Known, SafeEntries;
    hide AllOf, DiskOk;
    var s' := DoRemoveWal(s, p, arms, ok);
    AbortTop(s, p);
    var s1 := s;
    if Left in arms {
      WalGone(s, p.tx.id, Left);
      s1 := s.(disk := s.disk.PutWal(p.tx.id, Left, Absent));
    }
    if Right in arms {
      WalGone(s1, p.tx.id, Right);
      s1 := s1.(disk := s1.disk.PutWal(p.tx.id, Right, Absent));
    }
    SameDiskOk(s1, s');
    CowsMono(s'.disk, s.committed, {}, Dirt(s'.proc.value));
    SameKnown(s, s', p.cows);
    SameQueue(s, p, s', s'.proc.value);
  }

  lemma AbortTop(s: Sys, p: Proc)
    requires DiskOk(s) && QueueHeld(s, p) && p.tx.id in p.queue.doing
    ensures p.tx.id <= s.disk.SavedQueue().wmark
  {
    QueueIsSaved(s, p);
  }

  lemma StepSaveEnd(s: Sys, p: Proc, ok: bool)
    requires Inv(s) && s.proc == Some(p) && Enabled(s, SaveEnd(ok))
    ensures Inv(DoSaveEnd(s, p, ok))
  {
    hide CowsOn, Holds, QueueHeld, QueueOk, RecoverSet, WalsSafe, NoFutureWals, WalsReadable, UnbornAbsent, Known, SafeEntries;
    hide AllOf, Readable;
    var s' := DoSaveEnd(s, p, ok);
    AllOfNone();
    SameKnown(s, s', p.cows);
    if ok {
      var q := Queue(p.wmark, p.queue.done, p.queue.doing - Ended(p, p.phase.mode));
      EndQueueOk(s, p);
      QueueStepDisk(s, p, q, s');
      HeldAfterSave(s', s'.proc.value);
      assert s'.proc.value.aborting == map[];
    } else if !p.phase.mode.ColdRedo? {
      SameQueue(s, p, s', s'.proc.value);
      CowsMono(s.disk, s.committed, {}, AllOf(p.aborting));
    }
  }

  lemma EndQueueOk(s: Sys, p: Proc)
    requires DiskOk(s) && QueueHeld(s, p) && p.queue.wmark <= p.wmark && p.phase.Ending? && QuietOk(s, p)
    ensures var q := Queue(p.wmark, p.queue.done, p.queue.doing - Ended(p, p.phase.mode)); QueueOk(q) && q.doing == {}
  {
    hide CowsOn, Holds, QueueHeld, RecoverSet, WalsSafe, NoFutureWals, UnbornAbsent, WalsReadable;
    QueueIsSaved(s, p);
  }

  lemma StepOpen(s: Sys)
    requires Inv(s) && s.proc.None? && Enabled(s, Open)
    ensures Inv(DoOpen(s))
  {
    hide CowsOn, QueueOk, RecoverSet, WalsSafe, NoFutureWals, WalsReadable, UnbornAbsent, Known, SafeEntries;
    hide AllOf, SafeSet;
    var s' := DoOpen(s);
    SafeRecover(s);
    AllOfNone();
    if s.disk.SavedQueue().doing == {} {
      RecoverNone(s.disk);
    }
  }

  lemma SafeRecover(s: Sys)
    requires DiskOk(s)
    ensures SafeSet(s.committed, RecoverSet(s.disk))
  {
    hide CowsOn, QueueOk, NoFutureWals, UnbornAbsent, SafeEntries, Readable;
    forall t | t in s.disk.SavedQueue().doing ensures SafeEntries(s.committed, s.disk.SavedWal(t)) {
      SavedIsArm(s.disk, t);
      SafeNothing(s.committed);
    }
    forall t | t in s.disk.SavedQueue().doing { SafeClean(s.committed, s.disk.SavedWal(t)); }
  }

  lemma SafeNothing(committed: map<Eid, Home>)
    ensures SafeEntries(committed, map[])
  {
  }

  lemma SavedIsArm(disk: Disk, t: Txid)
    ensures disk.SavedWal(t) == map[] ||
      exists arm :: disk.Wal(t).Get(arm).Stored? && disk.Wal(t).Get(arm).value == disk.SavedWal(t)
  {
    var l := LoadItem(disk.Wal(t));
    if l.Loaded? {
      assert disk.Wal(t).Get(l.arm).Stored?;
    }
  }
}
