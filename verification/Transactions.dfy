/** Transactions over copy-on-write entities, with a write-ahead log and a
    persisted queue of transactions, as a step machine: one step per operation on
    the store, each of which may fail, and a stop possible between any two. One
    transaction runs at a time. */
module Transactions {
  import opened Basics
  import opened Armor

  type Txid = nat

  // the object an entity wraps
  datatype Inner = Inner(repr: nat)

  datatype Action = New | Update

  datatype Entry = Entry(action: Action, arm: Arm)

  // a write-ahead log: what a transaction touches, and in which arm
  type Entries = map<Eid, Entry>

  datatype Queue = Queue(wmark: Txid, done: seq<Txid>, doing: set<Txid>)

  const COMMITTED_QUEUE_SIZE: nat := 2

  // one stored arm of an entity
  datatype Site = Site(id: Eid, arm: Arm)

  /** Everything that survives a stop. */
  datatype Disk = Disk(walq: Arms<Queue>, wals: map<Txid, Arms<Entries>>, cows: map<Eid, Arms<Inner>>) {
    function Wal(t: Txid): Arms<Entries> {
      if t in wals then wals[t] else Arms(Absent, Absent)
    }

    function Cow(id: Eid): Arms<Inner> {
      if id in cows then cows[id] else Arms(Absent, Absent)
    }

    function PutWal(t: Txid, arm: Arm, slot: Slot<Entries>): Disk {
      this.(wals := wals[t := Wal(t).Put(arm, slot)])
    }

    function PutCow(id: Eid, arm: Arm, slot: Slot<Inner>): Disk {
      this.(cows := cows[id := Cow(id).Put(arm, slot)])
    }

    // delete stored arms; deleting what is not there is fine
    function Delete(sites: set<Site>): Disk {
      this.(cows := map id | id in cows :: Arms(if Site(id, Left) in sites then Absent else cows[id].left,
                                                if Site(id, Right) in sites then Absent else cows[id].right))
    }

    // the queue as the next open will find it
    function SavedQueue(): Queue {
      var l := LoadItem(walq);
      if l.Loaded? then l.value else Queue(0, [], {})
    }

    // the log as the next open will find it, empty if there is none
    function SavedWal(t: Txid): Entries {
      var l := LoadItem(Wal(t));
      if l.Loaded? then l.value else map[]
    }
  }

  predicate Cleans(e: Entry, arm: Arm) { e.action == New || arm == e.arm }

  /** The arms an abort deletes: all of a new entity, the new one of an updated one. */
  function CleanSet(entries: Entries): (r: set<Site>)
    ensures forall s :: s in r <==> s.id in entries && Cleans(entries[s.id], s.arm)
  {
    var r := set id, arm | id in entries && arm in {Left, Right} && Cleans(entries[id], arm) :: Site(id, arm);
    assert forall s: Site :: s.id in entries && Cleans(entries[s.id], s.arm) ==> s in r by {
      forall s: Site | s.id in entries && Cleans(entries[s.id], s.arm) ensures s in r {
        assert s.arm.Left? || s.arm.Right?;
        assert s == Site(s.id, s.arm) && s.arm in {Left, Right};
      }
    }
    r
  }

  /** What a cold redo deletes: the traces of every transaction still doing. */
  function RecoverSet(disk: Disk): set<Site> {
    set t, s | t in disk.SavedQueue().doing && s in CleanSet(disk.SavedWal(t)) :: s
  }

  function AllOf(wals: map<Txid, Entries>): set<Site> {
    set t, s | t in wals && s in CleanSet(wals[t]) :: s
  }

  /** An entity in memory: the version in use and, in a transaction, the staged one. */
  datatype Cow = Cow(seqNo: nat, arm: Arm, inner: Inner, staged: Option<Inner>, action: Option<Action>)

  datatype Tx = Tx(id: Txid, entries: Entries, seqNo: nat, arm: Arm, writes: map<Eid, Inner>)

  datatype Mode = InAbort | HotRedo | ColdRedo

  datatype Phase =
    | Idle
    | Beginning                         // queue saved, first log save to come
    | Running
    | SavingWal
    | SavingCows(unsaved: set<Eid>)
    | Committing                        // recycling, then the queue save that commits
    | Cleaning(mode: Mode, todo: set<Site>)
    | RemovingWal
    | Ending(mode: Mode)                // queue save that forgets the transaction

  /** Everything a stop loses. */
  datatype Proc = Proc(wmark: Txid, qSeqNo: nat, qArm: Arm, queue: Queue, aborting: map<Txid, Entries>,
                       cows: map<Eid, Cow>, phase: Phase, tx: Tx)

  // which value an entity has for good, and in which arm
  datatype Home = Home(arm: Arm, inner: Inner)

  /** The system; `committed` and `born` are the specification's bookkeeping. */
  datatype Sys = Sys(disk: Disk, proc: Option<Proc>, committed: map<Eid, Home>, born: set<Eid>)

  datatype Step =
    | Begin(ok: bool) | SaveFirstWal(ok: bool)
    | Create(id: Eid, v: Inner) | Modify(id: Eid, v: Inner) | LoadCow(id: Eid) | Evict(id: Eid)
    | Commit | GiveUp
    | SaveWal(ok: bool) | SaveCow(id: Eid, outcome: Outcome) | CowsSaved
    | RecycleDel(arm: Arm) | CommitFail | SaveCommit(ok: bool)
    | Redo | CleanDel(site: Site) | CleanFail(gone: set<Site>) | CleanDone
    | RemoveWal(arms: set<Arm>, ok: bool) | SaveEnd(ok: bool)
    | Stop | Open

  function NoTx(): Tx { Tx(0, map[], 0, Left, map[]) }

  function NewTx(t: Txid): Tx { Tx(t, map[], 0, Left, map[]) }

  function Init(): Sys {
    Sys(Disk(Arms(Absent, Absent), map[], map[]),
        Some(Proc(0, 0, Left, Queue(0, [], {}), map[], map[], Idle, NoTx())), map[], {})
  }

  // the queue after committing t: retired transactions are dropped first
  function Retire(done: seq<Txid>): seq<Txid>
    decreases |done|
  {
    if |done| >= COMMITTED_QUEUE_SIZE then Retire(done[1..]) else done
  }

  // the transactions a full queue keeps
  function Newest(ts: seq<Txid>): seq<Txid> {
    if |ts| <= COMMITTED_QUEUE_SIZE then ts else ts[|ts| - COMMITTED_QUEUE_SIZE..]
  }

  // the logs of the transactions to be retired have been removed
  predicate Recycled(disk: Disk, done: seq<Txid>) {
    forall i :: 0 <= i <= |done| - COMMITTED_QUEUE_SIZE ==> disk.Wal(done[i]) == Arms(Absent, Absent)
  }

  function Committed(q: Queue, wmark: Txid, t: Txid): Queue {
    Queue(wmark, Retire(q.done) + [t], q.doing - {t})
  }

  // which transactions the end of an abort or redo forgets
  function Ended(p: Proc, mode: Mode): set<Txid> {
    match mode
    case InAbort => {p.tx.id}
    case HotRedo => p.aborting.Keys
    case ColdRedo => p.queue.doing
  }

  function NewValue(c: Cow): Inner {
    if c.staged.Some? then c.staged.value else c.inner
  }

  function CompleteCow(c: Cow): Cow {
    if c.action == Some(Update) then Cow(c.seqNo, c.arm.Other(), NewValue(c), None, None)
    else c.(action := None)
  }

  // after a commit: updated entities switch to their new arm
  function CompleteCows(cows: map<Eid, Cow>): map<Eid, Cow> {
    map id | id in cows :: CompleteCow(cows[id])
  }

  /** After an abort the staged copies are gone; a new entity stays with whoever
      holds it. */
  function AbortCow(c: Cow): Cow { c.(staged := None, action := None) }

  function AbortCows(cows: map<Eid, Cow>): map<Eid, Cow> {
    map id | id in cows :: AbortCow(cows[id])
  }

  function StartAbort(p: Proc): Proc {
    p.(aborting := p.aborting[p.tx.id := p.tx.entries], cows := AbortCows(p.cows),
       phase := Cleaning(InAbort, CleanSet(p.tx.entries)))
  }

  function CommitHomes(committed: map<Eid, Home>, tx: Tx): map<Eid, Home> {
    committed + map id | id in tx.writes && id in tx.entries :: Home(tx.entries[id].arm, tx.writes[id])
  }

  // a save of the queue that succeeds
  function WithQueue(s: Sys, p: Proc, q: Queue): (Disk, Proc) {
    (s.disk.(walq := s.disk.walq.Put(p.qArm.Other(), Stored(p.qSeqNo + 1, q))),
     p.(qSeqNo := p.qSeqNo + 1, qArm := p.qArm.Other(), queue := q))
  }

  // a save of the transaction's log that succeeds
  function WithWal(s: Sys, p: Proc): (Disk, Proc) {
    (s.disk.PutWal(p.tx.id, p.tx.arm.Other(), Stored(p.tx.seqNo + 1, p.tx.entries)),
     p.(tx := p.tx.(seqNo := p.tx.seqNo + 1, arm := p.tx.arm.Other())))
  }

  // the arm a commit writes an entity to
  function Target(c: Cow): Arm { if c.action == Some(New) then c.arm else c.arm.Other() }

  // the store is being opened
  predicate IsCold(phase: Phase) {
    phase == Ending(ColdRedo) || (phase.Cleaning? && phase.mode.ColdRedo?)
  }

  /** When a step can be taken. Nobody loads an entity while the store is being
      opened. */
  predicate Enabled(s: Sys, step: Step) {
    if s.proc.None? then step.Open? && LoadItem(s.disk.walq).Loaded?
    else
      var p := s.proc.value;
      match step
      case Begin(_) => p.phase.Idle? && p.aborting == map[]
      case SaveFirstWal(_) => p.phase.Beginning?
      case Create(id, _) => p.phase.Running? && id !in s.born
      case Modify(id, _) => p.phase.Running? && id in p.cows
      case LoadCow(id) =>
        !IsCold(p.phase) && id !in p.cows && LoadItem(s.disk.Cow(id)).Loaded?
      case Evict(id) => id in p.cows && p.cows[id].action.None?
      case Commit => p.phase.Running?
      case GiveUp => p.phase.Running?
      case SaveWal(_) => p.phase.SavingWal?
      case SaveCow(id, outcome) =>
        p.phase.SavingCows? && id in p.phase.unsaved && id in p.cows && outcome != Torn
      case CowsSaved => p.phase.SavingCows? && p.phase.unsaved == {}
      case RecycleDel(_) => p.phase.Committing? && |p.queue.done| >= COMMITTED_QUEUE_SIZE
      case CommitFail => p.phase.Committing?
      case SaveCommit(_) => p.phase.Committing? && Recycled(s.disk, p.queue.done)
      case Redo => p.phase.Idle? && p.aborting != map[]
      case CleanDel(site) => p.phase.Cleaning? && site in p.phase.todo
      case CleanFail(gone) => p.phase.Cleaning? && gone <= p.phase.todo
      case CleanDone => p.phase.Cleaning? && p.phase.todo == {}
      case RemoveWal(arms, ok) => p.phase.RemovingWal? && (ok ==> arms == {Left, Right})
      case SaveEnd(_) => p.phase.Ending?
      case Stop => true
      case Open => false
  }

  function Do(s: Sys, step: Step): Sys
    requires Enabled(s, step)
  {
    if s.proc.None? then DoOpen(s)
    else
      var p := s.proc.value;
      match step
      case Begin(ok) => DoBegin(s, p, ok)
      case SaveFirstWal(ok) =>
        if ok then var (disk, p') := WithWal(s, p); s.(disk := disk, proc := Some(p'.(phase := Running)))
        else s.(proc := Some(StartAbort(p)))
      case Create(id, v) => DoCreate(s, p, id, v)
      case Modify(id, v) => DoModify(s, p, id, v)
      case LoadCow(id) =>
        var l := LoadItem(s.disk.Cow(id));
        s.(proc := Some(p.(cows := p.cows[id := Cow(l.seqNo, l.arm, l.value, None, None)])))
      case Evict(id) => s.(proc := Some(p.(cows := p.cows - {id})))
      case Commit => s.(proc := Some(p.(phase := SavingWal)))
      case GiveUp => s.(proc := Some(StartAbort(p)))
      case SaveWal(ok) =>
        if ok then
          var (disk, p') := WithWal(s, p);
          s.(disk := disk, proc := Some(p'.(phase := SavingCows(p.tx.entries.Keys))))
        else s.(proc := Some(StartAbort(p)))
      case SaveCow(id, outcome) => DoSaveCow(s, p, id, outcome)
      case CowsSaved => s.(proc := Some(p.(phase := Committing)))
      case RecycleDel(arm) => s.(disk := s.disk.PutWal(p.queue.done[0], arm, Absent))
      case CommitFail => s.(proc := Some(StartAbort(p)))
      case SaveCommit(ok) => DoSaveCommit(s, p, ok)
      case Redo => s.(proc := Some(p.(phase := Cleaning(HotRedo, AllOf(p.aborting)))))
      case CleanDel(site) =>
        s.(disk := s.disk.Delete({site}), proc := Some(p.(phase := Cleaning(p.phase.mode, p.phase.todo - {site}))))
      case CleanFail(gone) =>
        // part of what was to be deleted may be gone all the same
        s.(disk := s.disk.Delete(gone),
           proc := if p.phase.mode.ColdRedo? then None else Some(p.(phase := Idle, tx := NoTx())))
      case CleanDone =>
        s.(proc := Some(p.(phase := if p.phase.mode.InAbort? then RemovingWal else Ending(p.phase.mode))))
      case RemoveWal(arms, ok) => DoRemoveWal(s, p, arms, ok)
      case SaveEnd(ok) => DoSaveEnd(s, p, ok)
      case Stop => s.(proc := None)
  }

  // next transaction id, then a queue save; a failure restores the queue
  function DoBegin(s: Sys, p: Proc, ok: bool): Sys {
    var t := p.wmark + 1;
    if ok then
      var (disk, p') := WithQueue(s, p, Queue(t, p.queue.done, p.queue.doing + {t}));
      s.(disk := disk, proc := Some(p'.(wmark := t, phase := Beginning, tx := NewTx(t))))
    else s.(proc := Some(p.(wmark := t)))
  }

  function DoCreate(s: Sys, p: Proc, id: Eid, v: Inner): Sys {
    var cow := Cow(0, Right, v, None, Some(New));
    s.(born := s.born + {id},
       proc := Some(p.(cows := p.cows[id := cow],
                       tx := p.tx.(entries := p.tx.entries[id := Entry(New, cow.arm)],
                                   writes := p.tx.writes[id := v]))))
  }

  // a new entity is changed directly, any other one in its staged copy
  function DoModify(s: Sys, p: Proc, id: Eid, v: Inner): Sys
    requires id in p.cows
  {
    var c := p.cows[id];
    if c.action == Some(New) then
      s.(proc := Some(p.(cows := p.cows[id := c.(inner := v)], tx := p.tx.(writes := p.tx.writes[id := v]))))
    else
      s.(proc := Some(p.(cows := p.cows[id := c.(staged := Some(v), action := Some(Update))],
                         tx := p.tx.(entries := p.tx.entries[id := Entry(Update, c.arm.Other())],
                                     writes := p.tx.writes[id := v]))))
  }

  function DoSaveCow(s: Sys, p: Proc, id: Eid, outcome: Outcome): Sys
    requires p.phase.SavingCows? && id in p.cows
  {
    var c := p.cows[id];
    var p' := p.(cows := p.cows[id := c.(seqNo := c.seqNo + 1)]);
    match outcome
    case Saved =>
      s.(disk := s.disk.PutCow(id, Target(c), Stored(c.seqNo + 1, NewValue(c))),
         proc := Some(p'.(phase := SavingCows(p.phase.unsaved - {id}))))
    case Untouched => s.(proc := Some(StartAbort(p')))
    case _ => s.(disk := s.disk.PutCow(id, Target(c), Absent), proc := Some(StartAbort(p')))
  }

  function DoSaveCommit(s: Sys, p: Proc, ok: bool): Sys {
    if ok then
      var (disk, p') := WithQueue(s, p, Committed(p.queue, p.wmark, p.tx.id));
      Sys(disk, Some(p'.(cows := CompleteCows(p.cows), phase := Idle, tx := NoTx())),
          CommitHomes(s.committed, p.tx), s.born)
    else s.(proc := Some(StartAbort(p)))
  }

  function DoRemoveWal(s: Sys, p: Proc, arms: set<Arm>, ok: bool): Sys {
    var d1 := if Left in arms then s.disk.PutWal(p.tx.id, Left, Absent) else s.disk;
    var d2 := if Right in arms then d1.PutWal(p.tx.id, Right, Absent) else d1;
    s.(disk := d2, proc := Some(if ok then p.(phase := Ending(InAbort)) else p.(phase := Idle, tx := NoTx())))
  }

  // a failure restores the queue: a hot abort stays pending, a cold one fails the open
  function DoSaveEnd(s: Sys, p: Proc, ok: bool): Sys
    requires p.phase.Ending?
  {
    if ok then
      var (disk, p') := WithQueue(s, p, Queue(p.wmark, p.queue.done, p.queue.doing - Ended(p, p.phase.mode)));
      s.(disk := disk, proc := Some(p'.(aborting := p.aborting - Ended(p, p.phase.mode), phase := Idle, tx := NoTx())))
    else if p.phase.mode.ColdRedo? then s.(proc := None)
    else s.(proc := Some(p.(phase := Idle, tx := NoTx())))
  }

  function DoOpen(s: Sys): Sys
    requires LoadItem(s.disk.walq).Loaded?
  {
    var l := LoadItem(s.disk.walq);
    s.(proc := Some(Proc(l.value.wmark, l.seqNo, l.arm, l.value, map[], map[],
                         if l.value.doing == {} then Idle else Cleaning(ColdRedo, RecoverSet(s.disk)), NoTx())))
  }

  predicate Legal(s: Sys, steps: seq<Step>)
    decreases |steps|
  {
    steps == [] || (Enabled(s, steps[0]) && Legal(Do(s, steps[0]), steps[1..]))
  }

  function Exec(s: Sys, steps: seq<Step>): Sys
    requires Legal(s, steps)
    decreases |steps|
  {
    if steps == [] then s else Exec(Do(s, steps[0]), steps[1..])
  }

  /** A step that does not load a committed entity from an arm a pending abort has
      yet to delete. Every step but a load is careful. */
  predicate Careful(s: Sys, step: Step)
    requires Enabled(s, step)
  {
    step.LoadCow? && s.proc.Some? && step.id in s.committed ==>
      Site(step.id, LoadItem(s.disk.Cow(step.id)).arm) !in AllOf(s.proc.value.aborting)
  }

  predicate CarefulRun(s: Sys, steps: seq<Step>)
    requires Legal(s, steps)
    decreases |steps|
  {
    steps == [] || (Careful(s, steps[0]) && CarefulRun(Do(s, steps[0]), steps[1..]))
  }
}
