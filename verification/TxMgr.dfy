/** Several transactions at work on cows at the same time: who holds what, and what
    each thread reads. */
module TxMgr {
  import opened Basics
  import opened Transactions
  import opened Cows

  type Values = map<Eid, Inner>

  /** One cow, against the committed values and those the transactions have staged.
      The version in use is the committed one, if the entity was ever committed. */
  ghost predicate CowOk(c: CowState, id: Eid, committed: Values, staged: map<Txid, Values>) {
    && c.At(c.arm).Some? && (id in committed ==> c.At(c.arm) == Some(committed[id]))
    && match c.action
       case None => c.txid.None? && (c.HasOther() ==> c.At(c.arm.Other()) == c.At(c.arm))
       case Some(New) =>
         && c.txid.Some? && id !in committed && !c.HasOther()
         && c.txid.value in staged && id in staged[c.txid.value] && c.At(c.arm) == Some(staged[c.txid.value][id])
       case Some(Update) =>
         && c.txid.Some? && c.txid.value in staged && id in staged[c.txid.value]
         && c.At(c.arm.Other()) == Some(staged[c.txid.value][id])
  }

  /** `committed` holds the values last committed, `history` all there ever were. */
  datatype World = World(cows: map<Eid, CowState>, reg: Registry, committed: Values, staged: map<Txid, Values>,
                         history: set<(Eid, Inner)>)

  ghost function Items(values: Values): set<(Eid, Inner)> {
    set id | id in values :: (id, values[id])
  }

  ghost predicate HistoryOk(w: World) {
    Items(w.committed) <= w.history && forall p :: p in w.history ==> p.0 in w.committed
  }

  // entity, transaction and cow name each other
  ghost predicate Linked(w: World, id: Eid) {
    && (id in w.reg.ents ==>
          && id in w.cows && w.cows[id].txid == Some(w.reg.ents[id])
          && w.reg.ents[id] in w.reg.txs && id in w.reg.txs[w.reg.ents[id]])
    && (id in w.cows && w.cows[id].txid.Some? ==> id in w.reg.ents)
    && (forall t :: t in w.reg.txs && id in w.reg.txs[t] ==> id in w.reg.ents && w.reg.ents[id] == t)
  }

  ghost predicate Ok(w: World) {
    && w.staged.Keys == w.reg.txs.Keys && HistoryOk(w)
    && (forall t :: t in w.reg.txs && t in w.staged ==> w.staged[t].Keys == w.reg.txs[t])
    && (forall id :: Linked(w, id))
    && (forall id :: id in w.cows ==> CowOk(w.cows[id], id, w.committed, w.staged))
  }

  /** At most one transaction holds a cow. */
  lemma OneHolder(w: World, s: Txid, t: Txid, id: Eid)
    requires Ok(w) && s in w.reg.txs && t in w.reg.txs && id in w.reg.txs[s] && id in w.reg.txs[t]
    ensures s == t && id in w.cows && w.cows[id].txid == Some(s)
  {
    assert Linked(w, id);
  }

  // created by a transaction that has not ended, and the reader is not in it
  ghost predicate NewElsewhere(c: CowState, thread: Option<Txid>) {
    c.action == Some(New) && c.txid != thread
  }

  // the thread's own transaction has staged a value
  ghost predicate Stages(w: World, thread: Option<Txid>, id: Eid) {
    thread.Some? && thread.value in w.staged && id in w.staged[thread.value]
  }

  // a value that some transaction committed for the entity
  ghost predicate ReadsCommitted(w: World, id: Eid, thread: Option<Txid>)
    requires id in w.cows
  {
    exists v :: (id, v) in w.history && Deref(w.cows[id], thread) == Some(v)
  }

  /** Isolation: a thread reads what its own transaction has staged. Any other thread
      reads a value some transaction committed exactly if the entity's creator has
      committed, and that is the last one; or else what the creator, running or
      aborted, has left. */
  lemma Isolation(w: World, id: Eid, thread: Option<Txid>)
    requires Ok(w) && id in w.cows
    ensures Stages(w, thread, id) ==> Deref(w.cows[id], thread) == Some(w.staged[thread.value][id])
    ensures !Stages(w, thread, id) ==> (ReadsCommitted(w, id, thread) <==> id in w.committed)
    ensures !Stages(w, thread, id) && id in w.committed ==> Deref(w.cows[id], thread) == Some(w.committed[id])
    ensures !Stages(w, thread, id) ==> Deref(w.cows[id], thread) == w.cows[id].At(w.cows[id].arm)
  {
    assert Linked(w, id) && CowOk(w.cows[id], id, w.committed, w.staged);
    if Stages(w, thread, id) {
      assert id in w.reg.txs[thread.value];
    } else if id in w.committed {
      assert (id, w.committed[id]) in w.history;
    }
  }

  class TxMgr {
    var cows: map<Eid, CowState>
    var reg: Registry
    ghost var committed: Values
    ghost var staged: map<Txid, Values>
    ghost var history: set<(Eid, Inner)>

    ghost function Value(): World
      reads this
    {
      World(cows, reg, committed, staged, history)
    }

    ghost predicate Valid()
      reads this
    {
      Ok(Value())
    }

    constructor ()
      ensures Valid() && committed == map[] && staged == map[] && cows == map[] && reg.txs == map[]
    {
      cows, reg := map[], Registry(map[], map[]);
      committed, staged, history := map[], map[], {};
    }

    method Begin(t: Txid)
      requires Valid() && t !in reg.txs
      modifies this`reg, this`staged
      ensures Valid() && staged == old(staged)[t := map[]] && reg.txs == old(reg.txs)[t := {}]
    {
      ghost var w := Value();
      reg := reg.(txs := reg.txs[t := {}]);
      staged := staged[t := map[]];
      BeginOk(w, t, Value());
    }

    /** A transaction creates an entity. */
    method Create(t: Txid, id: Eid, v: Inner)
      requires Valid() && t in reg.txs && id !in cows && id !in committed
      modifies this
      ensures Valid() && committed == old(committed) && reg.txs.Keys == old(reg).txs.Keys
      ensures cows == old(cows)[id := NewCow(v).(txid := Some(t), action := Some(New))]
      ensures t in old(staged) && staged == old(staged)[t := old(staged)[t][id := v]]
    {
      ghost var w := Value();
      assert Linked(w, id);
      var (added, r) := reg.Add(id, t);
      var c := NewCow(v).(txid := Some(t), action := Some(New));
      cows, reg := cows[id := c], added;
      staged := staged[t := staged[t][id := v]];
      JoinOk(w, t, id, c, v, Value());
    }

    /** Change an entity. In the thread's own transaction that stages the value; if
        another transaction updates the entity it fails and nothing changes; but
        if another one created it, the change goes through to that one. */
    method Assign(thread: Option<Txid>, id: Eid, v: Inner) returns (r: Result)
      requires Valid() && id in cows && (thread.Some? ==> thread.value in reg.txs)
      modifies this
      ensures Valid() && committed == old(committed) && cows.Keys == old(cows).Keys
      ensures var holder := old(cows[id].txid);
        if old(NewElsewhere(cows[id], thread)) then
          && r == Success && holder.Some? && holder.value in old(staged)
          && staged == old(staged)[holder.value := old(staged)[holder.value][id := v]]
        else if thread.None? then r == Failure(NoTrans) && staged == old(staged)
        else if holder.Some? && holder != thread then r == Failure(InUse) && staged == old(staged)
        else
          && r == Success && thread.value in old(staged)
          && staged == old(staged)[thread.value := old(staged)[thread.value][id := v]]
    {
      hide CowOk, Change, Linked;
      ghost var w := Value();
      ChangeOk(w, id, thread, v);
      var holder := cows[id].txid;
      var (c, added, res) := Change(cows[id], id, reg, thread, v);
      r := res;
      cows, reg := cows[id := c], added;
      if r.Success? {
        ghost var t := if holder.Some? then holder.value else thread.value;
        staged := staged[t := staged[t][id := v]];
        JoinOk(w, t, id, c, v, Value());
      } else {
        FailOk(w, id, c, Value());
      }
    }

    // save every entity of the transaction until one save fails
    method SaveAll(t: Txid, saves: Eid -> bool) returns (ok: bool)
      requires Valid() && t in reg.txs
      modifies this`cows
      ensures Valid() && cows.Keys == old(cows).Keys
      ensures ok <==> forall id :: id in reg.txs[t] ==> saves(id)
      ensures forall id :: id in cows ==> cows[id] == old(cows)[id].(seqNo := cows[id].seqNo)
      ensures forall id :: id in cows && id !in reg.txs[t] ==> cows[id] == old(cows)[id]
      ensures ok ==> forall id :: id in cows && id in reg.txs[t] ==> cows[id].seqNo == old(cows)[id].seqNo + 1
    {
      hide CowOk, Linked, Ok;
      var todo := reg.txs[t];
      ok := true;
      while ok && todo != {}
        invariant todo <= reg.txs[t] && Valid() && cows.Keys == old(cows).Keys
        invariant forall id :: id in cows ==> cows[id] == old(cows)[id].(seqNo := cows[id].seqNo)
        invariant forall id :: id in cows && (id in todo || id !in reg.txs[t]) ==> cows[id] == old(cows)[id]
        invariant forall id :: id in cows && id in reg.txs[t] && id !in todo ==> cows[id].seqNo == old(cows)[id].seqNo + 1
        invariant ok <==> forall id :: id in reg.txs[t] && id !in todo ==> saves(id)
        decreases todo, ok
      {
        var id :| id in todo;
        ghost var w := Value();
        HoldsCow(w, t, id);
        cows := cows[id := cows[id].(seqNo := cows[id].seqNo + 1)];
        SeqOk(w, id, Value());
        ok := saves(id);
        todo := todo - {id};
      }
    }

    // the transaction leaves the manager
    method Remove(t: Txid)
      modifies this`reg
      ensures reg == Registry(old(reg).txs - {t}, Kept(old(reg).ents, t))
    {
      reg := Registry(reg.txs - {t}, map id | id in reg.ents && reg.ents[id] != t :: reg.ents[id]);
    }

    /** Commit: all staged values become the committed ones, or, if the save of the log, of
        an entity or of the queue at the end fails, none does and everything is as it
        was. */
    method Commit(t: Txid, logged: bool, saves: Eid -> bool, queued: bool) returns (ok: bool)
      requires Valid() && t in reg.txs
      modifies this
      ensures ok <==> logged && (forall id :: id in old(reg).txs[t] ==> saves(id)) && queued
      ensures Valid() && staged == old(staged) - {t} && t in old(staged)
      ensures committed == if ok then old(committed) + old(staged)[t] else old(committed)
      ensures cows.Keys == old(cows).Keys && reg == Registry(old(reg).txs - {t}, Kept(old(reg).ents, t))
      ensures forall id :: id in cows && id !in old(reg).txs[t] ==> cows[id] == old(cows)[id]
      ensures ok ==> forall id :: id in cows && id in old(reg).txs[t] ==>
        cows[id] == CompleteCommit(old(cows)[id].(seqNo := old(cows)[id].seqNo + 1))
      ensures !ok ==> forall id :: id in cows && id in old(reg).txs[t] ==>
        cows[id] == Abort(old(cows)[id].(seqNo := cows[id].seqNo))
    {
      hide CowOk, Linked, Ok, CompleteCommit, Abort, Kept;
      ghost var tx, was := reg.txs[t], cows;
      ok := logged;
      if ok {
        ok := SaveAll(t, saves);
      }
      ok := ok && queued;
      ghost var saved := cows;
      if ok {
        CompleteAll(t);
      } else {
        AbortAll(t);
        forall id | id in cows && id in tx ensures cows[id] == Abort(was[id].(seqNo := cows[id].seqNo)) {
          AbortSeq(saved[id]);
        }
      }
    }

    // the values saved become the committed ones
    method CompleteAll(t: Txid)
      requires Valid() && t in reg.txs
      modifies this
      ensures Valid() && staged == old(staged) - {t} && t in old(staged) && committed == old(committed) + old(staged)[t]
      ensures cows.Keys == old(cows).Keys && reg == Registry(old(reg).txs - {t}, Kept(old(reg).ents, t))
      ensures forall id :: id in cows ==> cows[id] == if id in old(reg).txs[t] then CompleteCommit(old(cows)[id]) else old(cows)[id]
    {
      hide CowOk, Linked, Ok, CompleteCommit, Kept, Items;
      ghost var w := Value();
      HasStaged(w, t);
      cows := map id | id in cows :: if id in reg.txs[t] then CompleteCommit(cows[id]) else cows[id];
      Remove(t);
      committed, history := committed + staged[t], history + Items(staged[t]);
      staged := staged - {t};
      CommitOk(w, t, Value());
    }

    /** Abort: what the transaction updated is as before; what it created stays, with
        the value it had. */
    method AbortAll(t: Txid)
      requires Valid() && t in reg.txs
      modifies this
      ensures Valid() && staged == old(staged) - {t} && t in old(staged) && committed == old(committed)
      ensures cows.Keys == old(cows).Keys && reg == Registry(old(reg).txs - {t}, Kept(old(reg).ents, t))
      ensures forall id :: id in cows ==> cows[id] == if id in old(reg).txs[t] then Abort(old(cows)[id]) else old(cows)[id]
      ensures forall id :: id in cows ==>
        cows[id].arm == old(cows)[id].arm && cows[id].At(cows[id].arm) == old(cows)[id].At(old(cows)[id].arm)
    {
      hide CowOk, Linked, Ok, Abort, Kept;
      ghost var w := Value();
      HasStaged(w, t);
      cows := map id | id in cows :: if id in reg.txs[t] then Abort(cows[id]) else cows[id];
      Remove(t);
      staged := staged - {t};
      AbortOk(w, t, Value());
    }
  }

  function Kept(ents: map<Eid, Txid>, t: Txid): map<Eid, Txid> {
    map id | id in ents && ents[id] != t :: ents[id]
  }

  /** What a change does, by who holds the entity. */
  lemma ChangeOk(w: World, id: Eid, thread: Option<Txid>, v: Inner)
    requires Ok(w) && id in w.cows && (thread.Some? ==> thread.value in w.reg.txs)
    ensures var (c, reg', r) := Change(w.cows[id], id, w.reg, thread, v);
      var holder := w.cows[id].txid;
      && (r == Success <==> NewElsewhere(w.cows[id], thread) || (thread.Some? && (holder.None? || holder == thread)))
      && (r == Failure(NoTrans) <==> !NewElsewhere(w.cows[id], thread) && thread.None?)
      && (r == Failure(InUse) <==>
            !NewElsewhere(w.cows[id], thread) && thread.Some? && holder.Some? && holder != thread)
      && (r == Success ==>
            var t := if holder.Some? then holder.value else thread.value;
            && t in w.reg.txs && t in w.staged && (id in w.reg.ents ==> w.reg.ents[id] == t) && c.txid == Some(t)
            && CowOk(c, id, w.committed, w.staged[t := w.staged[t][id := v]])
            && reg' == Registry(w.reg.txs[t := w.reg.txs[t] + {id}], w.reg.ents[id := t]))
      && (r != Success ==> reg' == w.reg && c.txid == holder && CowOk(c, id, w.committed, w.staged))
      && (NewElsewhere(w.cows[id], thread) ==> holder.Some?)
  {
    assert Linked(w, id) && CowOk(w.cows[id], id, w.committed, w.staged);
    if w.cows[id].txid.Some? {
      SameRegistry(w.reg, w.cows[id].txid.value, id);
    }
  }

  lemma SameRegistry(reg: Registry, t: Txid, id: Eid)
    requires t in reg.txs && id in reg.txs[t] && id in reg.ents && reg.ents[id] == t
    ensures reg == Registry(reg.txs[t := reg.txs[t] + {id}], reg.ents[id := t])
  {
    assert reg.txs[t] + {id} == reg.txs[t];
  }

  lemma HoldsCow(w: World, t: Txid, id: Eid)
    requires Ok(w) && t in w.reg.txs && id in w.reg.txs[t]
    ensures id in w.cows
  {
    hide CowOk;
    assert Linked(w, id);
  }

  lemma AbortSeq(c: CowState)
    ensures Abort(c).seqNo == c.seqNo
  {
  }

  lemma HasStaged(w: World, t: Txid)
    requires Ok(w) && t in w.reg.txs
    ensures t in w.staged
  {
    hide CowOk, Linked;
  }

  lemma SeqOk(w: World, id: Eid, w': World)
    requires Ok(w) && id in w.cows && w' == w.(cows := w.cows[id := w.cows[id].(seqNo := w.cows[id].seqNo + 1)])
    ensures Ok(w')
  {
    assert CowOk(w.cows[id], id, w.committed, w.staged);
    FailOk(w, id, w'.cows[id], w');
  }

  // after the end of a transaction, ok or not
  ghost predicate EndedReg(w: World, t: Txid, w': World) {
    w'.reg == Registry(w.reg.txs - {t}, Kept(w.reg.ents, t)) && w'.staged == w.staged - {t}
  }

  lemma EndLinked(w: World, t: Txid, w': World, id: Eid)
    requires Linked(w, id) && EndedReg(w, t, w')
    requires id in w'.cows ==> id in w.cows
    requires id in w.reg.ents && w.reg.ents[id] != t ==> id in w'.cows && w'.cows[id].txid == w.cows[id].txid
    requires id in w'.cows && (id !in w.reg.ents || w.reg.ents[id] == t) ==> w'.cows[id].txid.None?
    ensures Linked(w', id)
  {
  }

  lemma CommittedCow(w: World, t: Txid, id: Eid)
    requires Ok(w) && t in w.reg.txs && id in w.cows && t in w.staged
    ensures if id in w.reg.txs[t] then
        && CowOk(CompleteCommit(w.cows[id]), id, w.committed + w.staged[t], w.staged - {t})
        && CompleteCommit(w.cows[id]).txid.None?
      else
        && CowOk(w.cows[id], id, w.committed + w.staged[t], w.staged - {t}) && w.cows[id].txid != Some(t)
  {
    assert Linked(w, id) && CowOk(w.cows[id], id, w.committed, w.staged);
  }

  lemma AbortedCow(w: World, t: Txid, id: Eid)
    requires Ok(w) && t in w.reg.txs && id in w.cows && t in w.staged
    ensures id in w.reg.txs[t] ==>
      && CowOk(Abort(w.cows[id]), id, w.committed, w.staged - {t}) && Abort(w.cows[id]).txid.None?
      && Abort(w.cows[id]).arm == w.cows[id].arm
      && Abort(w.cows[id]).At(w.cows[id].arm) == w.cows[id].At(w.cows[id].arm)
    ensures id !in w.reg.txs[t] ==> CowOk(w.cows[id], id, w.committed, w.staged - {t}) && w.cows[id].txid != Some(t)
  {
    assert Linked(w, id) && CowOk(w.cows[id], id, w.committed, w.staged);
  }

  lemma CommitOk(w: World, t: Txid, w': World)
    requires Ok(w) && t in w.reg.txs && t in w.staged && EndedReg(w, t, w')
    requires w'.committed == w.committed + w.staged[t] && w'.history == w.history + Items(w.staged[t])
    requires w'.cows == map id | id in w.cows :: if id in w.reg.txs[t] then CompleteCommit(w.cows[id]) else w.cows[id]
    ensures Ok(w')
  {
    hide CowOk;
    forall id ensures Linked(w', id) {
      assert Linked(w, id);
      if id in w.cows {
        CommittedCow(w, t, id);
      }
      EndLinked(w, t, w', id);
    }
    forall id | id in w'.cows ensures CowOk(w'.cows[id], id, w'.committed, w'.staged) {
      CommittedCow(w, t, id);
    }
  }

  lemma AbortOk(w: World, t: Txid, w': World)
    requires Ok(w) && t in w.reg.txs && t in w.staged && EndedReg(w, t, w')
    requires w'.committed == w.committed && w'.history == w.history
    requires w'.cows == map id | id in w.cows :: if id in w.reg.txs[t] then Abort(w.cows[id]) else w.cows[id]
    ensures Ok(w')
    ensures forall id :: id in w'.cows ==>
      w'.cows[id].arm == w.cows[id].arm && w'.cows[id].At(w.cows[id].arm) == w.cows[id].At(w.cows[id].arm)
  {
    hide CowOk;
    forall id ensures Linked(w', id) {
      assert Linked(w, id);
      if id in w.cows {
        AbortedCow(w, t, id);
      }
      EndLinked(w, t, w', id);
    }
    forall id | id in w'.cows ensures CowOk(w'.cows[id], id, w'.committed, w'.staged)
      && w'.cows[id].arm == w.cows[id].arm && w'.cows[id].At(w.cows[id].arm) == w.cows[id].At(w.cows[id].arm)
    {
      AbortedCow(w, t, id);
    }
  }

  lemma BeginOk(w: World, t: Txid, w': World)
    requires Ok(w) && t !in w.reg.txs
    requires w' == w.(reg := w.reg.(txs := w.reg.txs[t := {}]), staged := w.staged[t := map[]])
    ensures Ok(w')
  {
    forall id ensures Linked(w', id) { assert Linked(w, id); }
    forall id | id in w'.cows ensures CowOk(w'.cows[id], id, w'.committed, w'.staged) {
      assert CowOk(w.cows[id], id, w.committed, w.staged);
    }
  }

  // an entity's value in a transaction it is or gets in
  lemma JoinOk(w: World, t: Txid, id: Eid, c: CowState, v: Inner, w': World)
    requires Ok(w) && t in w.reg.txs && t in w.staged && (id in w.reg.ents ==> w.reg.ents[id] == t)
    requires c.txid == Some(t) && CowOk(c, id, w.committed, w.staged[t := w.staged[t][id := v]])
    requires w'.cows == w.cows[id := c] && w'.committed == w.committed && w'.history == w.history
    requires w'.staged == w.staged[t := w.staged[t][id := v]]
    requires w'.reg == Registry(w.reg.txs[t := w.reg.txs[t] + {id}], w.reg.ents[id := t])
    ensures Ok(w')
  {
    forall i ensures Linked(w', i) { assert Linked(w, i); }
    forall i | i in w'.cows ensures CowOk(w'.cows[i], i, w'.committed, w'.staged) {
      if i != id {
        assert CowOk(w.cows[i], i, w.committed, w.staged);
      }
    }
  }

  // a change that failed leaves at most an unused copy
  lemma FailOk(w: World, id: Eid, c: CowState, w': World)
    requires Ok(w) && id in w.cows && c.txid == w.cows[id].txid && CowOk(c, id, w.committed, w.staged)
    requires w' == w.(cows := w.cows[id := c])
    ensures Ok(w')
  {
    forall i ensures Linked(w', i) { assert Linked(w, i); }
  }

  /** Isolation does fail for new entities: a run in which a thread outside any
      transaction reads a value nobody committed. */
  method NewIsVisible(id: Eid, v: Inner) returns (seen: Option<Inner>, ghost committed: Values)
    ensures seen == Some(v) && id !in committed
  {
    var tm := new TxMgr();
    tm.Begin(1);
    tm.Create(1, id, v);
    seen, committed := Deref(tm.cows[id], None), tm.committed;
  }

  /** A run in which an aborted entity lives on: a thread outside any transaction reads
      its value, and a later transaction updates it like any other. */
  method AbortedLivesOn(id: Eid, u: Inner, v: Inner)
    returns (seen: Option<Inner>, r: Result, after: Option<Inner>, ghost committed: Values)
    ensures seen == Some(u) && r == Success && after == Some(v) && committed == map[]
  {
    hide Change;
    var tm := new TxMgr();
    tm.Begin(1);
    tm.Create(1, id, u);
    tm.AbortAll(1);
    Isolation(tm.Value(), id, None);
    seen := Deref(tm.cows[id], None);
    tm.Begin(2);
    Isolation(tm.Value(), id, None);
    r := tm.Assign(Some(2), id, v);
    Isolation(tm.Value(), id, Some(2));
    after, committed := Deref(tm.cows[id], Some(2)), tm.committed;
  }
}
