/** Two-arm saving: saves go to the arm not in use, a load takes the newer one. */
module Armor {
  import opened Basics

  datatype Arm = Left | Right {
    function Other(): Arm {
      if this == Left then Right else Left
    }
  }

  /** What loading one arm gives: nothing there, some other error, or an item. */
  datatype Slot<T> = Absent | Unreadable | Stored(seqNo: nat, value: T)

  datatype Arms<T> = Arms(left: Slot<T>, right: Slot<T>) {
    function Get(arm: Arm): Slot<T> {
      if arm == Left then left else right
    }

    function Put(arm: Arm, slot: Slot<T>): Arms<T> {
      if arm == Left then Arms(slot, right) else Arms(left, slot)
    }
  }

  datatype Load<T> = Loaded(arm: Arm, seqNo: nat, value: T) | NotFound | Failed

  function Newer<T>(left: Slot<T>, right: Slot<T>): Load<T>
    requires left.Stored? && right.Stored?
  {
    if left.seqNo > right.seqNo then Loaded(Left, left.seqNo, left.value) else Loaded(Right, right.seqNo, right.value)
  }

  /** Loading from a volume: an error other than "not found" is passed on. */
  function LoadItem<T>(arms: Arms<T>): Load<T> {
    match (arms.left, arms.right)
    case (Stored(_, _), Stored(_, _)) => Newer(arms.left, arms.right)
    case (Stored(s, v), Absent) => Loaded(Left, s, v)
    case (Absent, Stored(s, v)) => Loaded(Right, s, v)
    case (Absent, Absent) => NotFound
    case _ => Failed
  }

  /** Loading from files: any error makes it fall back to the other arm. */
  function LoadFileItem<T>(arms: Arms<T>): Load<T> {
    match (arms.left, arms.right)
    case (Stored(_, _), Stored(_, _)) => Newer(arms.left, arms.right)
    case (Stored(s, v), _) => Loaded(Left, s, v)
    case (_, Stored(s, v)) => Loaded(Right, s, v)
    case (_, Absent) => NotFound
    case _ => Failed
  }

  /** How an attempt to save ends: stored, or failed with the target arm as it
      was, gone, or half written. */
  datatype Outcome = Saved | Untouched | Dropped | Torn

  /** The item's bookkeeping in memory together with its stored arms. */
  datatype Item<T> = Item(seqNo: nat, arm: Arm, arms: Arms<T>) {
    /** Raise the sequence and toggle the arm; a failure toggles the arm back but
        keeps the sequence. */
    function Save(value: T, outcome: Outcome): Item<T> {
      var target := arm.Other();
      match outcome
      case Saved => Item(seqNo + 1, target, arms.Put(target, Stored(seqNo + 1, value)))
      case Untouched => Item(seqNo + 1, arm, arms)
      case Dropped => Item(seqNo + 1, arm, arms.Put(target, Absent))
      case Torn => Item(seqNo + 1, arm, arms.Put(target, Unreadable))
    }
  }

  /** The arm in use holds `last`; the other one holds nothing newer. */
  ghost predicate Holds<T>(item: Item<T>, last: Option<T>) {
    var curr, other := item.arms.Get(item.arm), item.arms.Get(item.arm.Other());
    match last
    case Some(v) =>
      && curr.Stored? && curr.value == v && curr.seqNo <= item.seqNo
      && (other.Stored? ==> other.seqNo < curr.seqNo)
    case None => !curr.Stored? && !other.Stored?
  }

  lemma HoldsLoads<T>(item: Item<T>, v: T)
    requires Holds(item, Some(v))
    ensures LoadFileItem(item.arms) == Loaded(item.arm, item.arms.Get(item.arm).seqNo, v)
    ensures !item.arms.left.Unreadable? && !item.arms.right.Unreadable? ==>
      LoadItem(item.arms) == Loaded(item.arm, item.arms.Get(item.arm).seqNo, v)
  {
  }

  datatype Attempt<T> = Attempt(value: T, outcome: Outcome)

  function Run<T>(item: Item<T>, attempts: seq<Attempt<T>>): Item<T> {
    if attempts == [] then item
    else
      var n := |attempts| - 1;
      Run(item, attempts[..n]).Save(attempts[n].value, attempts[n].outcome)
  }

  function LastSaved<T>(attempts: seq<Attempt<T>>): Option<T> {
    if attempts == [] then None
    else
      var n := |attempts| - 1;
      if attempts[n].outcome.Saved? then Some(attempts[n].value) else LastSaved(attempts[..n])
  }

  function NewItem<T>(): Item<T> { Item(0, Left, Arms(Absent, Absent)) }

  lemma {:induction false} RunHolds<T>(attempts: seq<Attempt<T>>)
    ensures Holds(Run(NewItem(), attempts), LastSaved(attempts))
    ensures (forall i :: 0 <= i < |attempts| ==> !attempts[i].outcome.Torn?) ==>
      var arms := Run(NewItem(), attempts).arms; !arms.left.Unreadable? && !arms.right.Unreadable?
    decreases |attempts|
  {
    if attempts != [] {
      RunHolds(attempts[..|attempts| - 1]);
    }
  }

  /** Whatever saves failed in between, a load gives the last item that was saved,
      and the two arms never carry the same sequence number. */
  lemma LoadGivesLastSaved<T>(attempts: seq<Attempt<T>>)
    requires LastSaved(attempts).Some?
    ensures var arms := Run(NewItem(), attempts).arms;
      && LoadFileItem(arms).Loaded? && LoadFileItem(arms).value == LastSaved(attempts).value
      && (arms.left.Stored? && arms.right.Stored? ==> arms.left.seqNo != arms.right.seqNo)
    ensures (forall i :: 0 <= i < |attempts| ==> !attempts[i].outcome.Torn?) ==>
      LoadItem(Run(NewItem(), attempts).arms) == LoadFileItem(Run(NewItem(), attempts).arms)
  {
    RunHolds(attempts);
    HoldsLoads(Run(NewItem(), attempts), LastSaved(attempts).value);
  }
}
