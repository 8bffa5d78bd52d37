/** A file's content: its entry list and its Merkle tree, kept in step. */
module Content {
  import opened Basics
  import opened Entries
  import opened Coverage
  import opened EntryLists
  import ContentReader
  import MerkleSpec
  import MerkleWriter
  import MerkleTree

  class Content {
    const h: Hasher
    const ents: EntryList
    const mtree: MerkleTree.MerkleTree

    ghost predicate Valid(store: Store)
      reads this, ents, mtree
    {
      && ents.Ok(store) && ents.offset == 0
      && mtree.h == h && mtree.IsTreeOf(ents.Denotes(store))
    }

    ghost function Model(store: Store): Bytes
      reads ents
    {
      ents.Denotes(store)
    }

    constructor (h: Hasher)
      ensures this.h == h && fresh(ents) && fresh(mtree)
      ensures ents.ents == [] && ents.len == 0 && ents.offset == 0
      ensures mtree.h == h && mtree.IsTreeOf([])
    {
      this.h := h;
      ents := new EntryList();
      var tree := MerkleTree.BuildFromWrites(h, []);
      mtree := tree;
    }

    constructor Clone(that: Content)
      ensures h == that.h && fresh(ents) && fresh(mtree)
      ensures ents.ents == that.ents.ents && ents.len == that.ents.len && ents.offset == that.ents.offset
      ensures forall store :: that.Valid(store) ==> Valid(store) && Model(store) == that.Model(store)
    {
      h := that.h;
      var list := new EntryList.Clone(that.ents);
      var tree := new MerkleTree.MerkleTree.Clone(that.mtree);
      ents, mtree := list, tree;
    }

    /** Write another, staged content into this one. */
    method MergeFrom(staged: EntryList, leaves: MerkleWriter.Leaves, store: Store)
      requires Valid(store)
      requires staged.Ok(store) && staged != ents
      requires staged.Denotes(store) != [] && staged.offset <= ents.EndOffset()
      requires leaves == MerkleWriter.StagedLeaves(h, staged.offset, staged.Denotes(store))
      modifies ents, mtree
      ensures Valid(store)
      ensures |old(Model(store))| == old(ents.len)
      ensures Model(store) == Splice(old(Model(store)), staged.offset, staged.Denotes(store))
      ensures EntsInBoth(ents.ents, old(ents.ents), staged.ents)
      ensures ents.ents ==
        WrittenEnts(old(ents.ents), old(ents.EndOffset()), staged.ents, staged.offset, staged.EndOffset(), store)
    {
      hide ListOk, ListBytes, Splice, EntsIn, EntsInBoth, WrittenEnts, MerkleWriter.StagedLeaves, MerkleSpec.Tree;
      ghost var base, data := Model(store), staged.Denotes(store);
      ents.DenotesLen(store);
      ents.WriteWith(staged, store);
      var bytes := ReadAll(store);
      var rdr := new MerkleWriter.Reader(bytes);
      assert leaves.offset == staged.offset by {
        LeavesOffset(h, staged.offset, data);
      }
      mtree.Merge(leaves, rdr, base, data);
    }

    /** Cut the content; an empty one has no entry to cut. */
    method Truncate(at: nat, store: Store)
      requires Valid(store) && ents.ents != [] && at <= ents.len
      modifies ents, mtree
      ensures Valid(store)
      ensures |old(Model(store))| == old(ents.len)
      ensures Model(store) == old(Model(store))[..at]
      ensures ents.ents == HeadEnts(old(ents.ents), at, store) && EntsIn(ents.ents, old(ents.ents))
    {
      hide ListOk, ListBytes, EntsIn, HeadEnts, MerkleSpec.Tree;
      ghost var base := Model(store);
      ents.DenotesLen(store);
      ents.SplitOff(at, store);
      var bytes := ReadAll(store);
      var rdr := new MerkleWriter.Reader(bytes);
      mtree.Truncate(at, rdr, base);
    }

    // everything a reader over the current entries yields
    method ReadAll(store: Store) returns (bytes: Bytes)
      requires ents.Ok(store) && ents.offset == 0
      ensures bytes == ents.Denotes(store)
    {
      var rdr := new ContentReader.Reader(ents, store);
      ents.DenotesLen(store);
      bytes := rdr.Read(ents.len);
      assert ents.Denotes(store)[0..ents.len] == ents.Denotes(store);
    }

    /** The content hash is the reference Merkle root of the bytes. */
    method Hash(ghost store: Store) returns (r: Hash)
      requires Valid(store)
      ensures r == MerkleSpec.Root(h, MerkleSpec.LeafLevel(h, Model(store)))
    {
      MerkleSpec.FlatHeadIsRoot(h, MerkleSpec.LeafLevel(h, Model(store)));
      r := mtree.RootHash();
    }
  }

  lemma LeavesOffset(h: Hasher, offset: nat, data: Bytes)
    ensures MerkleWriter.StagedLeaves(h, offset, data).offset == offset
  {
  }

  /** What a user does to a file: overwrite it with a staged list that denotes
      `data`, or cut it. Each operation sees the segment store of its time. */
  datatype Op = Write(offset: nat, ents: seq<Entry>, data: Bytes) | Cut(at: nat)

  datatype Step = Step(store: Store, op: Op)

  function Effect(bytes: Bytes, op: Op): Bytes {
    match op
    case Write(offset, _, data) => if offset <= |bytes| then Splice(bytes, offset, data) else bytes
    case Cut(at) => if at <= |bytes| then bytes[..at] else bytes
  }

  function Outcome(steps: seq<Step>): Bytes {
    if steps == [] then [] else Effect(Outcome(steps[..|steps| - 1]), steps[|steps| - 1].op)
  }

  ghost predicate Applicable(bytes: Bytes, step: Step) {
    match step.op
    case Write(offset, ents, data) =>
      && offset <= |bytes| && data != []
      && ListOk(offset, |data|, ents, step.store) && ListBytes(ents, step.store) == data
    case Cut(at) => at <= |bytes| && bytes != []
  }

  ghost predicate Legal(steps: seq<Step>) {
    && (forall k :: 0 <= k < |steps| ==> Applicable(Outcome(steps[..k]), steps[k]))
    && (forall k, l :: 0 <= k && l == k + 1 < |steps| ==> StoreGrows(steps[k].store, steps[l].store))
  }

  /** Over every run of writes and truncations from the empty content, the list
      stays well formed, reads back as the plain byte string, and the tree is the
      rebuilt one. */
  method Replay(h: Hasher, steps: seq<Step>) returns (c: Content, store: Store)
    requires Legal(steps)
    ensures c.h == h && c.Valid(store) && c.Model(store) == Outcome(steps)
    ensures steps != [] ==> store == steps[|steps| - 1].store
  {
    hide ListOk, ListBytes, Outcome, Applicable, StoreGrows, Splice;
    c := new Content(h);
    store := map[];
    EmptyListOk(0, store);
    OutcomeNone(steps);
    for k := 0 to |steps|
      invariant c.h == h && c.Valid(store) && fresh(c.ents) && fresh(c.mtree)
      invariant c.Model(store) == Outcome(steps[..k])
      invariant k == 0 ==> store == map[]
      invariant k > 0 ==> store == steps[k - 1].store
    {
      var step := steps[k];
      ListGrowsTo(c.ents.len, c.ents.ents, store, step.store, k, steps);
      store := step.store;
      OutcomeStep(steps, k);
      Perform(c, step, Outcome(steps[..k]));
    }
    assert steps[..|steps|] == steps;
  }

  method Perform(c: Content, step: Step, ghost bytes: Bytes)
    requires c.Valid(step.store) && c.Model(step.store) == bytes
    requires Applicable(bytes, step)
    modifies c.ents, c.mtree
    ensures c.Valid(step.store) && c.Model(step.store) == Effect(bytes, step.op)
  {
    hide ListOk, ListBytes, Splice;
    c.ents.DenotesLen(step.store);
    if step.op.Write? {
      var offset, data := step.op.offset, step.op.data;
      var staged := new EntryList.Of(offset, |data|, step.op.ents);
      var wtr := new MerkleWriter.Writer(c.h);
      wtr.Seek(offset);
      wtr.Write(data);
      assert [] + data == data;
      var leaves := wtr.FinishWithLeaves();
      c.MergeFrom(staged, leaves, step.store);
    } else {
      c.Truncate(step.op.at, step.store);
    }
  }

  lemma OutcomeNone(steps: seq<Step>)
    ensures Outcome(steps[..0]) == []
  {
  }

  lemma OutcomeStep(steps: seq<Step>, k: nat)
    requires k < |steps|
    ensures Outcome(steps[..k + 1]) == Effect(Outcome(steps[..k]), steps[k].op)
  {
    assert steps[..k + 1][..k] == steps[..k];
  }

  lemma ListGrowsTo(len: nat, ents: seq<Entry>, store: Store, store': Store, k: nat, steps: seq<Step>)
    requires Legal(steps) && k < |steps| && store' == steps[k].store
    requires ListOk(0, len, ents, store)
    requires if k == 0 then store == map[] else store == steps[k - 1].store
    ensures ListOk(0, len, ents, store') && ListBytes(ents, store') == ListBytes(ents, store)
  {
    hide ListOk, ListBytes, SegGrows;
    assert StoreGrows(store, store') by {
      if k > 0 {
        assert StoreGrows(steps[k - 1].store, steps[k].store);
      }
    }
    ListGrows(0, len, ents, store, store');
  }
}
