/** What every step of the transaction machine keeps. */
module TransactionsInv {
  import opened Basics
  import opened Armor
  import opened Transactions

  ghost predicate Readable<T>(a: Arms<T>) {
    && !a.left.Unreadable? && !a.right.Unreadable?
    && (a.left.Stored? && a.right.Stored? ==> a.left.seqNo != a.right.seqNo)
  }

  // deleting the site cannot hurt a committed value
  ghost predicate SafeSite(committed: map<Eid, Home>, s: Site) {
    s.id in committed ==> s.arm != committed[s.id].arm
  }

  ghost predicate SafeSet(committed: map<Eid, Home>, sites: set<Site>) {
    forall s :: s in sites ==> SafeSite(committed, s)
  }

  ghost predicate SafeEntries(committed: map<Eid, Home>, e: Entries) {
    forall id :: id in e ==>
      id in committed ==> e[id].action == Update && e[id].arm == committed[id].arm.Other()
  }

  /** The store has the committed value of `id`, and nothing that would be loaded
      instead of it except in the dirty sites. */
  ghost predicate CowOn(disk: Disk, committed: map<Eid, Home>, dirty: set<Site>, id: Eid) {
    var a := disk.Cow(id);
    if id in committed then
      var h := committed[id];
      var cur, oth := a.Get(h.arm), a.Get(h.arm.Other());
      && cur.Stored? && cur.value == h.inner && !oth.Unreadable?
      && (oth.Stored? ==> oth.seqNo != cur.seqNo && (oth.seqNo < cur.seqNo || Site(id, h.arm.Other()) in dirty))
    else
      && (a.left.Absent? || (a.left.Stored? && Site(id, Left) in dirty))
      && (a.right.Absent? || (a.right.Stored? && Site(id, Right) in dirty))
  }

  ghost predicate CowsOn(disk: Disk, committed: map<Eid, Home>, dirty: set<Site>) {
    forall id :: CowOn(disk, committed, dirty, id)
  }

  ghost predicate QueueOk(q: Queue) {
    && |q.done| <= COMMITTED_QUEUE_SIZE
    && (forall t :: t in q.done ==> t <= q.wmark && t !in q.doing)
    && (forall t :: t in q.doing ==> t <= q.wmark)
    && |q.doing| <= 1
  }

  ghost predicate WalsSafe(disk: Disk, committed: map<Eid, Home>) {
    forall t, arm :: t in disk.SavedQueue().doing && disk.Wal(t).Get(arm).Stored? ==>
      SafeEntries(committed, disk.Wal(t).Get(arm).value)
  }

  // no log has the number of a transaction that was never queued
  ghost predicate NoFutureWals(disk: Disk) {
    forall t: Txid :: t > disk.SavedQueue().wmark ==> disk.Wal(t) == Arms(Absent, Absent)
  }

  ghost predicate WalsReadable(disk: Disk) {
    forall t: Txid :: Readable(disk.Wal(t))
  }

  ghost predicate UnbornAbsent(disk: Disk, born: set<Eid>) {
    forall id :: id !in born ==> disk.Cow(id) == Arms(Absent, Absent)
  }

  /** What the store keeps, whether or not a process runs: a recovery from it
      leaves exactly the committed values. */
  ghost predicate DiskOk(s: Sys) {
    && Readable(s.disk.walq) && QueueOk(s.disk.SavedQueue())
    && WalsReadable(s.disk) && NoFutureWals(s.disk) && WalsSafe(s.disk, s.committed)
    && s.committed.Keys <= s.born && UnbornAbsent(s.disk, s.born)
    && CowsOn(s.disk, s.committed, RecoverSet(s.disk))
  }

  // the queue in memory is the one saved last
  ghost predicate QueueHeld(s: Sys, p: Proc) {
    || (s.disk.walq == Arms(Absent, Absent) && p.queue == Queue(0, [], {}))
    || Holds(Item(p.qSeqNo, p.qArm, s.disk.walq), Some(p.queue))
  }

  predicate InTx(phase: Phase) {
    phase.Beginning? || phase.Running? || phase.SavingWal? || phase.SavingCows? || phase.Committing?
  }

  /** Which sites may hold what must not be loaded, as far as the process knows. */
  function Dirt(p: Proc): set<Site> {
    match p.phase
    case Idle => AllOf(p.aborting)
    case SavingCows(_) => CleanSet(p.tx.entries)
    case Committing => CleanSet(p.tx.entries)
    case Cleaning(_, todo) => todo
    case _ => {}
  }

  ghost predicate Settled(s: Sys, id: Eid, c: Cow) {
    && c.action.None? && c.staged.None?
    && id in s.committed && s.committed[id] == Home(c.arm, c.inner)
    && s.disk.Cow(id).Get(c.arm).Stored? && s.disk.Cow(id).Get(c.arm).seqNo <= c.seqNo
  }

  // left in memory by an abort of the transaction that created it
  ghost predicate Loose(s: Sys, id: Eid, c: Cow) {
    c.action.None? && c.staged.None? && id !in s.committed
  }

  ghost predicate Known(s: Sys, id: Eid, c: Cow) {
    Settled(s, id, c) || Loose(s, id, c)
  }

  // an entity in memory, during a transaction
  ghost predicate CowOk(s: Sys, tx: Tx, id: Eid, c: Cow) {
    match c.action
    case None => Known(s, id, c) && id !in tx.entries
    case Some(New) =>
      && id !in s.committed && c.staged.None?
      && id in tx.entries && tx.entries[id] == Entry(New, c.arm)
      && id in tx.writes && tx.writes[id] == c.inner
    case Some(Update) =>
      && c.staged.Some? && Known(s, id, AbortCow(c))
      && id in tx.entries && tx.entries[id] == Entry(Update, c.arm.Other())
      && id in tx.writes && tx.writes[id] == c.staged.value
  }

  ghost predicate MemOk(s: Sys, p: Proc) {
    && p.cows.Keys <= s.born
    && (forall id :: id in p.cows ==>
          if InTx(p.phase) then CowOk(s, p.tx, id, p.cows[id]) else Known(s, id, p.cows[id]))
  }

  ghost predicate EntriesOk(s: Sys, p: Proc) {
    && p.tx.writes.Keys == p.tx.entries.Keys <= p.cows.Keys
    && SafeEntries(s.committed, p.tx.entries)
    && (forall id :: id in p.tx.entries ==> p.cows[id].action == Some(p.tx.entries[id].action))
  }

  // entity `id` has been saved in the arm its log entry names
  ghost predicate CowSaved(s: Sys, p: Proc, id: Eid)
    requires id in p.tx.entries && id in p.tx.writes && id in p.cows
  {
    && s.disk.Cow(id).Get(p.tx.entries[id].arm) == Stored(p.cows[id].seqNo, p.tx.writes[id])
    && (p.tx.entries[id].action == Update ==>
          var home := s.disk.Cow(id).Get(p.cows[id].arm);
          if id in s.committed then home.Stored? && home.seqNo < p.cows[id].seqNo else home.Absent?)
  }

  // how far the transaction has got in the store
  ghost predicate TxOk(s: Sys, p: Proc) {
    && p.aborting == map[] && p.queue.doing == {p.tx.id} && EntriesOk(s, p)
    && match p.phase
       case Beginning => p.tx == NewTx(p.tx.id) && s.disk.Wal(p.tx.id) == Arms(Absent, Absent)
       case SavingCows(unsaved) =>
         && unsaved <= p.tx.entries.Keys
         && WalSaved(s, p, p.tx.entries) && NewAlone(s, p) && SavedOutside(s, p, unsaved)
       case Committing => WalSaved(s, p, p.tx.entries) && NewAlone(s, p) && SavedOutside(s, p, {})
       case _ => WalSaved(s, p, map[]) && NewAbsent(s, p)
  }

  ghost predicate WalSaved(s: Sys, p: Proc, e: Entries) {
    Holds(Item(p.tx.seqNo, p.tx.arm, s.disk.Wal(p.tx.id)), Some(e))
  }

  ghost predicate NewAlone(s: Sys, p: Proc) {
    forall id :: id in p.tx.entries && p.tx.entries[id].action == New ==>
      s.disk.Cow(id).Get(p.tx.entries[id].arm.Other()).Absent?
  }

  ghost predicate NewAbsent(s: Sys, p: Proc) {
    forall id :: id in p.tx.entries && p.tx.entries[id].action == New ==> s.disk.Cow(id) == Arms(Absent, Absent)
  }

  ghost predicate SavedOutside(s: Sys, p: Proc, unsaved: set<Eid>)
    requires p.tx.entries.Keys == p.tx.writes.Keys <= p.cows.Keys
  {
    forall id :: id in p.tx.entries && id !in unsaved ==> CowSaved(s, p, id)
  }

  predicate IsAbort(phase: Phase) {
    phase.RemovingWal? || phase == Ending(InAbort) || (phase.Cleaning? && phase.mode.InAbort?)
  }

  // what is pending when no transaction runs
  ghost predicate QuietOk(s: Sys, p: Proc) {
    && p.aborting.Keys == (if IsCold(p.phase) then {} else p.queue.doing)
    && (IsAbort(p.phase) ==> p.aborting.Keys == {p.tx.id})
    && (forall t :: t in p.aborting ==> SafeEntries(s.committed, p.aborting[t]))
    && (p.phase.Cleaning? ==> SafeSet(s.committed, p.phase.todo))
    && (p.phase.Cleaning? && !IsCold(p.phase) ==> p.phase.todo <= AllOf(p.aborting))
  }

  ghost predicate ProcOk(s: Sys, p: Proc) {
    && QueueHeld(s, p) && p.queue.wmark <= p.wmark
    && MemOk(s, p)
    && CowsOn(s.disk, s.committed, Dirt(p))
    && (if InTx(p.phase) then TxOk(s, p) else QuietOk(s, p))
  }

  ghost predicate Inv(s: Sys) {
    DiskOk(s) && (s.proc.Some? ==> ProcOk(s, s.proc.value))
  }
}
