/** A copy-on-write entity in memory: two versions, one of them in use. */
module Cows {
  import opened Basics
  import opened Armor
  import opened Transactions

  // the fields of a cow
  datatype CowState = CowState(seqNo: nat, arm: Arm, left: Option<Inner>, right: Option<Inner>,
                               txid: Option<Txid>, action: Option<Action>) {
    function At(a: Arm): Option<Inner> {
      if a == Left then left else right
    }

    function Put(a: Arm, v: Option<Inner>): CowState {
      if a == Left then this.(left := v) else this.(right := v)
    }

    function HasOther(): bool { At(arm.Other()).Some? }

    // the arm of the version a commit saves
    function Saves(): Arm {
      if action == Some(New) then arm else arm.Other()
    }
  }

  function NewCow(v: Inner): CowState {
    CowState(0, Right, None, Some(v), None, None)
  }

  datatype Error = InUse | InTrans | NoTrans

  datatype Result = Success | Failure(error: Error)

  /** What the transaction manager knows: running transactions with the entities in
      them, and which transaction an entity is in. */
  datatype Registry = Registry(txs: map<Txid, set<Eid>>, ents: map<Eid, Txid>) {
    // the entity joins the transaction, unless it is in another one or there is none
    function Add(id: Eid, t: Txid): (Registry, Result) {
      var r := if id in ents then this else this.(ents := ents[id := t]);
      if r.ents[id] != t then (r, Failure(InTrans))
      else if t !in txs then (r, Failure(NoTrans))
      else (r.(txs := txs[t := txs[t] + {id}]), Success)
    }
  }

  /** Join the transaction of the calling thread, if it is in one. */
  function AddToTrans(c: CowState, id: Eid, reg: Registry, thread: Option<Txid>, action: Action): (CowState, Registry, Result)
  {
    if thread.None? then (c, reg, Failure(NoTrans))
    else if c.txid.Some? && c.txid != thread then (c, reg, Failure(InUse))
    else if c.txid.Some? && c.action.Some? then (c, reg, Success)
    else
      var (reg', r) := reg.Add(id, thread.value);
      if r.Failure? then (c, reg', r) else (c.(txid := thread, action := Some(action)), reg', Success)
  }

  /** Change the entity to `v`: directly if it is new, else in the other version, which
      starts as a copy. */
  function Change(c: CowState, id: Eid, reg: Registry, thread: Option<Txid>, v: Inner): (CowState, Registry, Result)
  {
    if c.action == Some(New) then (c.Put(c.arm, Some(v)), reg, Success)
    else
      var c1 := if c.HasOther() then c else c.Put(c.arm.Other(), c.At(c.arm));
      var (c2, reg', r) := AddToTrans(c1, id, reg, thread, Update);
      if r.Failure? then (c2, reg', r) else (c2.Put(c2.arm.Other(), Some(v)), reg', Success)
  }

  /** What a thread reads: its own transaction's version, or the one in use. */
  function Deref(c: CowState, thread: Option<Txid>): Option<Inner> {
    if c.txid.None? || c.txid != thread || c.action == Some(New) then c.At(c.arm) else c.At(c.arm.Other())
  }

  function CompleteCommit(c: CowState): CowState {
    var c1 := if c.action == Some(Update) then c.(arm := c.arm.Other()).Put(c.arm, None) else c;
    c1.(txid := None, action := None)
  }

  function Abort(c: CowState): CowState {
    var c1 := if c.action == Some(Update) then c.Put(c.arm.Other(), None) else c;
    c1.(txid := None, action := None)
  }

  /** A cow as the crash model sees it: the version in use and the staged one. */
  function View(c: CowState): Transactions.Cow
    requires c.At(c.arm).Some?
  {
    Transactions.Cow(c.seqNo, c.arm, c.At(c.arm).value,
                     if c.action == Some(Update) then c.At(c.arm.Other()) else None, c.action)
  }

  // both versions of an update are there
  predicate Updating(c: CowState) { c.action == Some(Update) ==> c.HasOther() }

  /** Completing and aborting do to the fields what the crash model says they do, for
      a new entity as for an updated one. */
  lemma ViewSteps(c: CowState)
    requires c.At(c.arm).Some? && Updating(c)
    ensures CompleteCommit(c).At(CompleteCommit(c).arm).Some? && View(CompleteCommit(c)) == CompleteCow(View(c))
    ensures Abort(c).At(Abort(c).arm).Some? && View(Abort(c)) == AbortCow(View(c))
  {
  }

  /** A change that was aborted never happened; one that was completed is what every
      thread reads. */
  lemma ChangeUndone(c: CowState, id: Eid, reg: Registry, thread: Option<Txid>, v: Inner)
    requires c.txid.None? && c.action.None? && c.At(c.arm).Some? && !c.HasOther()
    ensures var (changed, _, r) := Change(c, id, reg, thread, v);
      if r.Success? then
        && Deref(changed, thread) == Some(v) && Abort(changed) == c
        && forall th :: Deref(CompleteCommit(changed), th) == Some(v) && (th != thread ==> Deref(changed, th) == c.At(c.arm))
      else forall th :: Deref(changed, th) == c.At(c.arm)
  {
  }

  // the armor's save: raise the sequence, write to the other arm, which a failure undoes
  function SaveItem(c: CowState, ok: bool): CowState {
    if ok then c.(seqNo := c.seqNo + 1, arm := c.arm.Other()) else c.(seqNo := c.seqNo + 1)
  }

  class Cow {
    var seqNo: nat
    var arm: Arm
    var left: Option<Inner>
    var right: Option<Inner>
    var txid: Option<Txid>
    var action: Option<Action>

    function State(): CowState
      reads this
    {
      CowState(seqNo, arm, left, right, txid, action)
    }

    constructor (v: Inner)
      ensures State() == NewCow(v)
    {
      seqNo, arm, left, right, txid, action := 0, Left.Other(), None, Some(v), None, None;
    }

    method SetAt(a: Arm, v: Option<Inner>)
      modifies this`left, this`right
      ensures State() == old(State()).Put(a, v)
    {
      match a {
        case Left => left := v;
        case Right => right := v;
      }
    }

    /** Toggle the arm, write, and toggle back if the write failed; `written` is the
        version and arm that went to the volume. */
    method Save(ok: bool) returns (written: (Arm, Option<Inner>))
      modifies this`seqNo, this`arm
      ensures State() == SaveItem(old(State()), ok)
      ensures written == (old(arm).Other(), old(State()).At(old(arm).Other()))
    {
      seqNo := seqNo + 1;
      arm := arm.Other();
      written := (arm, State().At(arm));
      if !ok {
        arm := arm.Other();
      }
    }

    /** Save a transaction's version. Whether or not that works, versions and arm end
        up as they were; what is written is the new version, to the new one's arm. */
    method Commit(ok: bool) returns (written: (Arm, Option<Inner>))
      requires action.Some? && Updating(State())
      modifies this
      ensures State() == old(State()).(seqNo := old(seqNo) + 1)
      ensures written == (old(State()).Saves(), old(State()).At(old(State()).Saves()))
    {
      if action == Some(New) {
        // saving toggles the arm, so it is toggled beforehand
        arm := arm.Other();
        written := Save(ok);
        if !ok {
          arm := arm.Other();
        }
      } else {
        var kept := State().At(arm);
        SetAt(arm, None);
        written := Save(ok);
        if ok {
          arm := arm.Other();
        }
        SetAt(arm, kept);
      }
    }

    /** From now on every thread reads the transaction's version, and of an updated
        cow it is the only one. */
    method DoCompleteCommit()
      requires action.Some? && Updating(State())
      modifies this
      ensures State() == CompleteCommit(old(State()))
      ensures forall th :: Deref(State(), th) == old(State()).At(old(State()).Saves())
      ensures txid.None? && arm == old(State()).Saves()
      ensures old(action) == Some(Update) ==> !State().HasOther()
    {
      assert action == Some(New) || action == Some(Update) by {
        assert action.value.New? || action.value.Update?;
      }
      if action == Some(Update) {
        arm := arm.Other();
        SetAt(arm.Other(), None);
      }
      txid, action := None, None;
    }

    /** From now on every thread reads what threads outside the transaction read
        before: the old version of an updated cow, but the aborted one of a new
        cow. */
    method DoAbort()
      requires action.Some?
      modifies this
      ensures State() == Abort(old(State()))
      ensures forall th :: Deref(State(), th) == old(State()).At(old(arm))
      ensures txid.None? && arm == old(arm)
      ensures old(action) == Some(Update) ==> !State().HasOther()
    {
      if action == Some(Update) {
        SetAt(arm.Other(), None);
      }
      txid, action := None, None;
    }

    method Assign(id: Eid, reg: Registry, thread: Option<Txid>, v: Inner) returns (reg': Registry, r: Result)
      modifies this
      ensures (State(), reg', r) == Change(old(State()), id, reg, thread, v)
    {
      reg' := reg;
      if action == Some(New) {
        SetAt(arm, Some(v));
        return reg, Success;
      }
      if !State().HasOther() {
        SetAt(arm.Other(), State().At(arm));
      }
      if thread.None? {
        return reg, Failure(NoTrans);
      }
      if txid.Some? && txid != thread {
        return reg, Failure(InUse);
      }
      if txid.None? || action.None? {
        var (added, res) := reg.Add(id, thread.value);
        reg' := added;
        if res.Failure? {
          return reg', res;
        }
        txid, action := thread, Some(Update);
      }
      SetAt(arm.Other(), Some(v));
      r := Success;
    }
  }
}
