/** The stored Merkle tree: a flat node array, built once and then updated in
    place by overwrites and truncations. */
module MerkleTree {
  import opened Basics
  import opened MerkleSpec
  import opened MerkleWriter

  // index of the parent of node n in the level above
  function Parent(n: nat, lvlBegin: nat, lvlNodeCnt: nat): nat
    requires lvlBegin <= n
    requires lvlNodeCnt == 0 || (lvlNodeCnt + 1) / 2 <= lvlBegin
  {
    if lvlNodeCnt == 0 then 0
    else lvlBegin - (lvlNodeCnt + 1) / 2 + (n - lvlBegin) / 2
  }

  method TreeNodeCnt(leafCnt: nat) returns (s: nat)
    requires leafCnt >= 1
    ensures s == Size(leafCnt)
  {
    s := 1;
    var n := leafCnt;
    while n > 1
      invariant n >= 1
      invariant s + Size(n) == Size(leafCnt) + 1
    {
      s := s + n;
      n := (n + 1) / 2;
    }
  }

  // hash one or two nodes, starting at m, into their parent
  function HashUp(h: Hasher, nodes: seq<Hash>, m: nat, isPair: bool, lvlBegin: nat, lvlNodeCnt: nat): seq<Hash>
    requires lvlBegin <= m && 1 <= (lvlNodeCnt + 1) / 2 <= lvlBegin
    requires m + (if isPair then 1 else 0) < |nodes|
    requires m - lvlBegin < lvlNodeCnt
  {
    nodes[Parent(m, lvlBegin, lvlNodeCnt) :=
      if isPair then h(nodes[m].bytes + nodes[m + 1].bytes) else nodes[m]]
  }

  // where the level of n nodes starts in the array
  function LevelBegin(n: nat): (r: int)
    requires n >= 1
  {
    Size(n) - n
  }

  ghost predicate HoldsAt(nodes: seq<Hash>, begin: int, lvl: seq<Hash>) {
    && 0 <= begin && begin + |lvl| <= |nodes|
    && forall i :: begin <= i < begin + |lvl| ==> nodes[i] == lvl[i - begin]
  }

  /** `lvl` is a level of `target`, and `nodes` is final from that level down. */
  ghost predicate Below(h: Hasher, target: seq<Hash>, nodes: seq<Hash>, lvl: seq<Hash>) {
    && |lvl| >= 1
    && |nodes| == |target|
    && 0 <= LevelBegin(|lvl|) && |Flat(h, lvl)| == LevelBegin(|lvl|) + |lvl| <= |target|
    && (forall i :: 0 <= i < |Flat(h, lvl)| ==> target[i] == Flat(h, lvl)[i])
    && (forall i :: LevelBegin(|lvl|) <= i < |target| ==> nodes[i] == target[i])
    && HoldsAt(nodes, LevelBegin(|lvl|), lvl)
  }

  // two arrays that end with the same level
  lemma SameEnd(nodes: seq<Hash>, flat: seq<Hash>, lvl: seq<Hash>, begin: int)
    requires HoldsAt(nodes, begin, lvl) && |nodes| == |flat| == begin + |lvl|
    requires forall i :: begin <= i < |flat| ==> flat[i] == lvl[i - begin]
    ensures forall i :: begin <= i < |flat| ==> nodes[i] == flat[i]
  {
  }

  lemma BelowLeaves(h: Hasher, nodes: seq<Hash>, lvl: seq<Hash>)
    requires |lvl| >= 1
    requires |nodes| == Size(|lvl|) >= |lvl|
    requires HoldsAt(nodes, LevelBegin(|lvl|), lvl)
    ensures Below(h, Flat(h, lvl), nodes, lvl)
  {
    hide Flat, Size, Up, HoldsAt;
    FlatShape(h, lvl);
    SameEnd(nodes, Flat(h, lvl), lvl, LevelBegin(|lvl|));
  }

  /** Once the parents of a whole level are in place, one more level is final. */
  lemma BelowUp(h: Hasher, target: seq<Hash>, before: seq<Hash>, nodes: seq<Hash>, lvl: seq<Hash>)
    requires |lvl| > 1
    requires Below(h, target, before, lvl)
    requires |nodes| == |before|
    requires LevelBegin(|lvl|) == Size(|Up(h, lvl)|)
    requires forall i :: LevelBegin(|lvl|) <= i < |nodes| ==> nodes[i] == before[i]
    requires HoldsAt(nodes, LevelBegin(|Up(h, lvl)|), Up(h, lvl))
    ensures Below(h, target, nodes, Up(h, lvl))
  {
    hide Flat, Size;
    var up := Up(h, lvl);
    FlatShape(h, lvl);
    FlatShape(h, up);
  }

  lemma BelowRoot(h: Hasher, target: seq<Hash>, nodes: seq<Hash>, lvl: seq<Hash>)
    requires Below(h, target, nodes, lvl) && |lvl| == 1
    ensures nodes == target
  {
  }

  lemma LevelAbove(n: nat)
    requires n >= 1
    ensures n <= Size(n)
    ensures (Size(n) - n >= 1) == (n > 1)
    ensures n > 1 ==> Size(n) - n == Size((n + 1) / 2) && (n + 1) / 2 <= Size((n + 1) / 2)
  {
    if n > 1 {
      FlatShape(x => Hash([]), seq(n, _ => Hash([])));
      FlatShape(x => Hash([]), seq((n + 1) / 2, _ => Hash([])));
    }
  }

  class MerkleTree {
    const h: Hasher
    var len: nat
    var nodes: seq<Hash>

    /** The tree is exactly the one a rebuild over `data` gives. */
    ghost predicate IsTreeOf(data: Bytes)
      reads this
    {
      len == |data| && nodes == Tree(h, data)
    }

    function RootHash(): Hash
      requires |nodes| >= 1
      reads this
    {
      nodes[0]
    }

    /** Build a tree from bottom up. */
    constructor Build(h: Hasher, leaves: Leaves)
      requires leaves.offset == 0 && |leaves.nodes| >= 1
      ensures this.h == h && len == leaves.len
      ensures nodes == Flat(h, leaves.nodes)
    {
      this.h := h;
      len := leaves.len;
      var leafCnt := |leaves.nodes|;
      var totalNodeCnt := TreeNodeCnt(leafCnt);
      LevelAbove(leafCnt);
      nodes := seq(totalNodeCnt - leafCnt, _ => Hash([])) + leaves.nodes;
      new;
      BelowLeaves(h, nodes, leaves.nodes);
      HashInnerNodes(totalNodeCnt - leafCnt, leafCnt, Flat(h, leaves.nodes), leaves.nodes);
    }

    constructor Clone(that: MerkleTree)
      ensures h == that.h && len == that.len && nodes == that.nodes
    {
      h, len, nodes := that.h, that.len, that.nodes;
    }

    // fill in the inner nodes above the leaves
    method HashInnerNodes(leavesBegin: nat, leafCnt: nat, ghost target: seq<Hash>, ghost leaves: seq<Hash>)
      requires Below(h, target, nodes, leaves)
      requires |leaves| == leafCnt && leavesBegin == LevelBegin(leafCnt)
      modifies this`nodes
      ensures nodes == target
    {
      hide Flat, Size;
      var begin, lvlNodeCnt := leavesBegin, leafCnt;
      ghost var lvl := leaves;
      LevelAbove(lvlNodeCnt);
      while begin >= 1
        invariant Below(h, target, nodes, lvl)
        invariant |lvl| == lvlNodeCnt && begin == LevelBegin(lvlNodeCnt)
        invariant (begin >= 1) == (lvlNodeCnt > 1)
        decreases begin
      {
        LevelAbove(lvlNodeCnt);
        ghost var before := nodes;
        HashLevel(begin, lvlNodeCnt, lvl);
        BelowUp(h, target, before, nodes, lvl);
        lvl := Up(h, lvl);
        begin := Parent(begin, begin, lvlNodeCnt);
        lvlNodeCnt := (lvlNodeCnt + 1) / 2;
        LevelAbove(lvlNodeCnt);
      }
      BelowRoot(h, target, nodes, lvl);
    }

    // hash every pair of a level into the level above
    method HashLevel(begin: nat, n: nat, ghost lvl: seq<Hash>)
      requires n > 1 && n == |lvl| && (n + 1) / 2 <= begin && begin + n <= |nodes|
      requires HoldsAt(nodes, begin, lvl)
      modifies this`nodes
      ensures |nodes| == |old(nodes)|
      ensures forall i :: begin <= i < |nodes| ==> nodes[i] == old(nodes)[i]
      ensures HoldsAt(nodes, begin - (n + 1) / 2, Up(h, lvl))
    {
      hide Up;
      ghost var ub := begin - (n + 1) / 2;
      var i := 0;
      while i < (n + 1) / 2
        invariant 0 <= i <= (n + 1) / 2
        invariant |nodes| == |old(nodes)|
        invariant forall k :: begin <= k < |nodes| ==> nodes[k] == old(nodes)[k]
        invariant forall k :: ub <= k < ub + i ==> nodes[k] == Up(h, lvl)[k - ub]
      {
        var m := begin + 2 * i;
        nodes := HashUp(h, nodes, m, m + 1 < begin + n, begin, n);
        i := i + 1;
      }
    }

    /** Merge freshly staged leaves into the tree; `rdr` reads the content as it
        is after the write. */
    method Merge(leaves: Leaves, rdr: Reader, ghost base: Bytes, ghost data: Bytes)
      requires IsTreeOf(base)
      requires data != [] && leaves.offset <= |base|
      requires leaves == StagedLeaves(h, leaves.offset, data)
      requires rdr.data == Splice(base, leaves.offset, data)
      modifies this, rdr
      ensures IsTreeOf(Splice(base, leaves.offset, data))
    {
      hide Merging, Size, OldAbove, FloorPiece, Flat;
      var endOffset := Max(len, leaves.offset + leaves.len);
      var leafCnt := CeilPiece(endOffset);
      var nodeCnt := TreeNodeCnt(leafCnt);
      var oldLeafCnt := CeilPiece(len);
      TreeShape(h, base);
      LevelsFit(oldLeafCnt, leafCnt);
      var leavesBegin := nodeCnt - leafCnt;
      var oldBegin := |nodes| - oldLeafCnt;
      ghost var before := nodes;
      MergeLeaves(leaves, rdr, base, data, leavesBegin, oldBegin);
      MergingLeaves(h, base, leaves.offset, data, before, nodes);
      MergeInnerNodes(leavesBegin, leafCnt, oldBegin, oldLeafCnt, leavesBegin + FloorPiece(leaves.offset),
                      Tree(h, rdr.data), LeafLevel(h, base), LeafLevel(h, rdr.data));
      len := endOffset;
    }

    // resize the array, move the old leaves and copy in the new ones
    method MoveLeaves(leaves: Leaves, leavesBegin: nat, oldBegin: nat, leafCnt: nat)
      requires oldBegin <= leavesBegin && oldBegin <= |nodes| && |nodes| - oldBegin <= leafCnt
      requires FloorPiece(leaves.offset) + |leaves.nodes| <= leafCnt
      modifies this`nodes
      ensures |nodes| == leavesBegin + leafCnt
      ensures forall i :: 0 <= i < oldBegin ==> nodes[i] == old(nodes)[i]
      ensures forall j :: 0 <= j < |leaves.nodes| ==>
        nodes[leavesBegin + FloorPiece(leaves.offset) + j] == leaves.nodes[j]
      ensures forall i :: oldBegin <= i < |old(nodes)| ==>
        || FloorPiece(leaves.offset) <= i - oldBegin < FloorPiece(leaves.offset) + |leaves.nodes|
        || nodes[leavesBegin + i - oldBegin] == old(nodes)[i]
    {
      var oldLeaves := nodes[oldBegin..];
      var resized := nodes + seq(leavesBegin + leafCnt - |nodes|, _ => Hash([]));
      var moved := Patch(resized, leavesBegin, oldLeaves);
      nodes := Patch(moved, leavesBegin + FloorPiece(leaves.offset), leaves.nodes);
    }

    // re-hash the pieces that hold both old and new bytes
    method RehashEdges(offset: nat, overlapEndOffset: nat, leavesBegin: nat, rdr: Reader)
      requires leavesBegin + FloorPiece(offset) < |nodes|
      requires leavesBegin + CeilPiece(overlapEndOffset) <= |nodes|
      modifies this`nodes, rdr
      ensures |nodes| == |old(nodes)|
      ensures forall i :: 0 <= i < leavesBegin ==> nodes[i] == old(nodes)[i]
      ensures forall j :: 0 <= j < |nodes| - leavesBegin ==>
        if IsEdge(offset, overlapEndOffset, j) then nodes[leavesBegin + j] == h(Piece(rdr.data, j))
        else nodes[leavesBegin + j] == old(nodes)[leavesBegin + j]
    {
      var overlapBegin := leavesBegin + FloorPiece(offset);
      var overlapEnd := leavesBegin + CeilPiece(overlapEndOffset);
      var headIsRehashed := AlignOffset(offset) != 0;
      if headIsRehashed {
        var head := PieceHash(h, offset, rdr);
        nodes := nodes[overlapBegin := head];
      }
      if AlignOffset(overlapEndOffset) != 0 && !(overlapBegin == overlapEnd - 1 && headIsRehashed) {
        var tail := PieceHash(h, overlapEndOffset, rdr);
        nodes := nodes[overlapEnd - 1 := tail];
      }
    }

    method MergeLeaves(leaves: Leaves, rdr: Reader, ghost base: Bytes, ghost data: Bytes,
                       leavesBegin: nat, oldBegin: nat)
      requires len == |base|
      requires data != [] && leaves.offset <= |base|
      requires leaves == StagedLeaves(h, leaves.offset, data)
      requires rdr.data == Splice(base, leaves.offset, data)
      requires oldBegin <= leavesBegin && |nodes| == oldBegin + CeilPiece(len)
      requires forall j :: 0 <= j < CeilPiece(len) ==> nodes[oldBegin + j] == h(Piece(base, j))
      modifies this`nodes, rdr
      ensures |nodes| == leavesBegin + CeilPiece(|rdr.data|)
      ensures HoldsAt(nodes, leavesBegin, LeafLevel(h, rdr.data))
      ensures forall i :: 0 <= i < oldBegin ==> nodes[i] == old(nodes)[i]
    {
      hide Piece, StagedPiece, Splice, IsEdge;
      var leafCnt := CeilPiece(Max(len, leaves.offset + leaves.len));
      MoveLeaves(leaves, leavesBegin, oldBegin, leafCnt);
      ghost var moved := nodes;
      RehashEdges(leaves.offset, Min(len, leaves.offset + leaves.len), leavesBegin, rdr);
      forall j | 0 <= j < leafCnt ensures nodes[leavesBegin + j] == h(Piece(rdr.data, j)) {
        if !IsEdge(leaves.offset, Min(len, leaves.offset + leaves.len), j) {
          MergedPiece(base, leaves.offset, data, j);
          ghost var o := FloorPiece(leaves.offset);
          assert nodes[leavesBegin + j] == moved[leavesBegin + j];
          if o <= j < o + |leaves.nodes| {
            assert moved[leavesBegin + o + (j - o)] == leaves.nodes[j - o];
          } else {
            assert moved[leavesBegin + (oldBegin + j) - oldBegin] == old(nodes)[oldBegin + j];
          }
        }
      }
    }

    // re-calculate inner nodes from bottom up; pairs left of the overlap take
    // their parent from the old tree, which still sits in the front of the array
    method MergeInnerNodes(leavesBegin: nat, leafCnt: nat, oldLeavesBegin: nat, oldLeafCnt: nat,
                           overlap: nat, ghost target: seq<Hash>,
                           ghost oldLeaves: seq<Hash>, ghost leaves: seq<Hash>)
      requires |leaves| == leafCnt >= 1 && leavesBegin == LevelBegin(leafCnt) <= overlap
      requires |oldLeaves| == oldLeafCnt >= 1 && oldLeavesBegin == LevelBegin(oldLeafCnt)
      requires Merging(h, target, nodes, oldLeaves, leaves, overlap - leavesBegin)
      modifies this`nodes
      ensures nodes == target
    {
      hide Merging, Size, OldParents;
      var begin, lvlNodeCnt := leavesBegin, leafCnt;
      var oldBegin, oldLvlNodeCnt := oldLeavesBegin, oldLeafCnt;
      var overlapBegin := overlap;
      ghost var lvl, oldLvl := leaves, oldLeaves;
      LevelAbove(lvlNodeCnt);
      LevelAbove(oldLvlNodeCnt);
      while begin >= 1
        invariant begin <= overlapBegin
        invariant Merging(h, target, nodes, oldLvl, lvl, overlapBegin - begin)
        invariant |lvl| == lvlNodeCnt >= 1 && begin == LevelBegin(lvlNodeCnt)
        invariant |oldLvl| == oldLvlNodeCnt >= 1 && oldBegin == LevelBegin(oldLvlNodeCnt)
        invariant (begin >= 1) == (lvlNodeCnt > 1) && (oldBegin >= 1) == (oldLvlNodeCnt > 1)
        decreases begin
      {
        MergingLevel(h, target, nodes, oldLvl, lvl, overlapBegin - begin);
        ghost var before := nodes;
        MergeLevel(begin, lvlNodeCnt, oldBegin, oldLvlNodeCnt, overlapBegin, lvl);
        MergingUp(h, target, before, nodes, oldLvl, lvl, overlapBegin - begin);
        LevelStepHolds(lvlNodeCnt);
        LevelStepHolds(oldLvlNodeCnt);
        overlapBegin := Parent(overlapBegin, begin, lvlNodeCnt);
        begin := Parent(begin, begin, lvlNodeCnt);
        lvlNodeCnt := (lvlNodeCnt + 1) / 2;
        if oldBegin > 0 {
          oldBegin := Parent(oldBegin, oldBegin, oldLvlNodeCnt);
          oldLvlNodeCnt := (oldLvlNodeCnt + 1) / 2;
        }
        lvl, oldLvl := Up(h, lvl), Up(h, oldLvl);
      }
      MergingRoot(h, target, nodes, oldLvl, lvl, overlapBegin - begin);
    }

    // one level of MergeInnerNodes: pairs are visited from the right, so a copy
    // never reads a slot that was already overwritten
    method MergeLevel(begin: nat, n: nat, oldBegin: nat, oldN: nat, overlapBegin: nat, ghost lvl: seq<Hash>)
      requires 1 < n == |lvl| && (n + 1) / 2 <= begin && begin + n <= |nodes|
      requires HoldsAt(nodes, begin, lvl)
      requires begin <= overlapBegin
      requires OldParents(h, nodes, lvl, oldBegin, oldN, begin - (n + 1) / 2, overlapBegin - begin)
      modifies this`nodes
      ensures |nodes| == |old(nodes)|
      ensures forall i :: begin <= i < |nodes| ==> nodes[i] == old(nodes)[i]
      ensures forall i :: 0 <= i < begin - (n + 1) / 2 ==> nodes[i] == old(nodes)[i]
      ensures HoldsAt(nodes, begin - (n + 1) / 2, Up(h, lvl))
    {
      hide Up;
      ghost var ub := begin - (n + 1) / 2;
      var i := (n + 1) / 2;
      while i > 0
        invariant 0 <= i <= (n + 1) / 2
        invariant |nodes| == |old(nodes)|
        invariant forall k :: begin <= k < |nodes| ==> nodes[k] == old(nodes)[k]
        invariant forall k :: 0 <= k < ub + i ==> nodes[k] == old(nodes)[k]
        invariant forall k :: ub + i <= k < begin ==> nodes[k] == Up(h, lvl)[k - ub]
      {
        i := i - 1;
        MergePair(begin, n, oldBegin, oldN, overlapBegin, i, lvl);
      }
    }

    // the parent of pair i of a level, copied from the old tree if it may be
    method MergePair(begin: nat, n: nat, oldBegin: nat, oldN: nat, overlapBegin: nat, i: nat,
                     ghost lvl: seq<Hash>)
      requires 1 < n == |lvl| && (n + 1) / 2 <= begin <= overlapBegin && 2 * i < n
      requires HoldsAt(nodes, begin, lvl)
      requires begin + 2 * i + 1 < overlapBegin && 2 * i + 1 < n ==>
        && 1 <= (oldN + 1) / 2 <= oldBegin
        && oldBegin - (oldN + 1) / 2 <= begin - (n + 1) / 2
        && nodes[oldBegin - (oldN + 1) / 2 + i] == Up(h, lvl)[i]
      modifies this`nodes
      ensures nodes == old(nodes)[begin - (n + 1) / 2 + i := Up(h, lvl)[i]]
    {
      hide Up;
      var m := begin + 2 * i;
      if m + 1 < begin + n && m + 1 < overlapBegin {
        // both children are left of the overlap
        var parentNode := Parent(m, begin, n);
        var oldNode := Parent(oldBegin + m - begin, oldBegin, oldN);
        assert parentNode >= oldNode;
        if oldNode != parentNode {
          nodes := nodes[parentNode := nodes[oldNode]];
        }
      } else {
        nodes := HashUp(h, nodes, m, m + 1 < begin + n, begin, n);
      }
    }

    /** Drop the bytes from `at` on; `rdr` reads the content as it is after that. */
    method Truncate(at: nat, rdr: Reader, ghost base: Bytes)
      requires IsTreeOf(base)
      requires at <= len && rdr.data == base[..at]
      modifies this, rdr
      ensures IsTreeOf(base[..at])
    {
      hide Truncating, Size, OldAbove, Flat, Piece;
      if at == len {
        assert base[..at] == base;
        return;
      }
      var leafCnt := CeilPiece(at);
      var nodeCnt := TreeNodeCnt(leafCnt);
      var oldLeafCnt := CeilPiece(len);
      TreeShape(h, base);
      LevelsFit(leafCnt, oldLeafCnt);
      var leavesBegin := nodeCnt - leafCnt;
      var src := |nodes| - oldLeafCnt;

      // keep the old leaves, but for a piece the cut goes through
      var cut := Patch(seq(nodeCnt, _ => Hash([])), leavesBegin, nodes[src..src + leafCnt]);
      if AlignOffset(at) != 0 || at == 0 {
        var last := PieceHash(h, at, rdr);
        cut := cut[nodeCnt - 1 := last];
      }
      TruncatingLeaves(h, base, at, nodes, cut);
      nodes := TruncateInnerNodes(cut, leavesBegin, leafCnt, src, oldLeafCnt,
                                  Tree(h, rdr.data), LeafLevel(h, base), LeafLevel(h, rdr.data));
      len := at;
    }

    // fill the inner nodes of a smaller tree: copy them from this one, level by
    // level, and re-hash only the last node of each level
    method TruncateInnerNodes(smaller: seq<Hash>, leavesBegin: nat, leafCnt: nat, oldLeavesBegin: nat,
                              oldLeafCnt: nat, ghost target: seq<Hash>, ghost oldLeaves: seq<Hash>,
                              ghost leaves: seq<Hash>)
      returns (cut: seq<Hash>)
      requires |leaves| == leafCnt >= 1 && leavesBegin == LevelBegin(leafCnt)
      requires |oldLeaves| == oldLeafCnt >= 1 && oldLeavesBegin == LevelBegin(oldLeafCnt)
      requires Truncating(h, target, smaller, nodes, oldLeaves, leaves)
      ensures cut == target
    {
      hide Truncating, Size, HoldsAt;
      cut := smaller;
      var begin, lvlNodeCnt := leavesBegin, leafCnt;
      var oldBegin, oldLvlNodeCnt := oldLeavesBegin, oldLeafCnt;
      var end, oldEnd := begin + leafCnt, oldBegin + leafCnt;
      ghost var lvl, oldLvl := leaves, oldLeaves;
      LevelAbove(lvlNodeCnt);
      while begin >= 1
        invariant Truncating(h, target, cut, nodes, oldLvl, lvl)
        invariant |lvl| == lvlNodeCnt >= 1 && begin == LevelBegin(lvlNodeCnt)
        invariant |oldLvl| == oldLvlNodeCnt >= 1 && oldBegin == LevelBegin(oldLvlNodeCnt)
        invariant (begin >= 1) == (lvlNodeCnt > 1)
        invariant end == begin + lvlNodeCnt && oldEnd == oldBegin + lvlNodeCnt
        decreases begin
      {
        TruncatingLevel(h, target, cut, nodes, oldLvl, lvl);
        ghost var before := cut;
        var dstBegin, srcBegin, srcEnd;
        cut, dstBegin, srcBegin, srcEnd :=
          TruncateLevel(cut, begin, end, lvlNodeCnt, oldBegin, oldEnd, oldLvlNodeCnt);
        TruncatingUp(h, target, before, cut, nodes, oldLvl, lvl);
        LevelStepHolds(lvlNodeCnt);
        LevelStepHolds(oldLvlNodeCnt);
        end, oldEnd := begin, srcEnd;
        begin, oldBegin := dstBegin, srcBegin;
        lvlNodeCnt, oldLvlNodeCnt := (lvlNodeCnt + 1) / 2, (oldLvlNodeCnt + 1) / 2;
        lvl, oldLvl := Up(h, lvl), Up(h, oldLvl);
      }
      TruncatingRoot(h, target, cut, nodes, oldLvl, lvl);
    }

    method TruncateLevel(smaller: seq<Hash>, begin: nat, end: nat, n: nat, oldBegin: nat, oldEnd: nat, oldN: nat)
      returns (cut: seq<Hash>, dstBegin: nat, srcBegin: nat, srcEnd: nat)
      requires 1 < n <= oldN && end == begin + n <= |smaller| && oldEnd == oldBegin + n
      requires (n + 1) / 2 <= begin && (oldN + 1) / 2 <= oldBegin <= |nodes|
      ensures dstBegin == begin - (n + 1) / 2 && srcBegin == oldBegin - (oldN + 1) / 2
      ensures srcEnd == srcBegin + (n + 1) / 2
      ensures |cut| == |smaller|
      ensures forall i :: begin <= i < |cut| ==> cut[i] == smaller[i]
      ensures forall i :: dstBegin <= i < begin - 1 ==> cut[i] == nodes[srcBegin + (i - dstBegin)]
      ensures cut[begin - 1] == (if n % 2 == 0 then h(smaller[end - 2].bytes + smaller[end - 1].bytes)
                                 else smaller[end - 1])
    {
      // the parents this level shares with the old one
      dstBegin := Parent(begin, begin, n);
      var dstEnd := Parent(end - 1, begin, n) + 1;
      srcBegin := Parent(oldBegin, oldBegin, oldN);
      srcEnd := Parent(oldEnd - 1, oldBegin, oldN) + 1;
      assert dstEnd - dstBegin == srcEnd - srcBegin;
      cut := Patch(smaller, dstBegin, nodes[srcBegin..srcEnd]);

      // the cut may have changed the last parent
      if (end - begin) % 2 == 0 {
        cut := HashUp(h, cut, end - 2, true, begin, n);
      } else {
        cut := HashUp(h, cut, end - 1, false, begin, n);
      }
    }
  }

  /** The state of a truncation that has reached level `lvl`, which differs from
      the old level in its last node at most. */
  ghost predicate Truncating(h: Hasher, target: seq<Hash>, cut: seq<Hash>, nodes: seq<Hash>,
                             oldLvl: seq<Hash>, lvl: seq<Hash>)
  {
    && Below(h, target, cut, lvl)
    && 1 <= |lvl| <= |oldLvl|
    && OldAbove(h, nodes, oldLvl)
    && SharedUpTo(oldLvl, lvl, |lvl| - 1)
  }

  lemma TruncatingLeaves(h: Hasher, base: Bytes, at: nat, nodes: seq<Hash>, cut: seq<Hash>)
    requires at < |base| && nodes == Tree(h, base)
    requires var cnt, oldCnt := CeilPiece(at), CeilPiece(|base|);
      && 0 <= LevelBegin(cnt) && 0 <= LevelBegin(oldCnt)
      && |cut| == Size(cnt) && |nodes| == Size(oldCnt)
      && (forall i :: LevelBegin(cnt) <= i < Size(cnt) - 1 ==>
            cut[i] == nodes[LevelBegin(oldCnt) + (i - LevelBegin(cnt))])
      && cut[|cut| - 1] == (if AlignOffset(at) != 0 || at == 0
                                then h(Piece(base[..at], FloorPiece(at)))
                                else nodes[LevelBegin(oldCnt) + cnt - 1])
    ensures Truncating(h, Tree(h, base[..at]), cut, nodes, LeafLevel(h, base), LeafLevel(h, base[..at]))
  {
    hide Flat, Size, Piece, OldAbove;
    TreeShape(h, base);
    var leaves := LeafLevel(h, base[..at]);
    var b, ob := LevelBegin(CeilPiece(at)), LevelBegin(CeilPiece(|base|));
    forall j: nat | j < |leaves| && (j < |leaves| - 1 || (AlignOffset(at) == 0 && at != 0))
      ensures Piece(base, j) == Piece(base[..at], j)
    {
      KeptPiece(base, at, j);
    }
    forall i | b <= i < b + |leaves| ensures cut[i] == leaves[i - b] {
      assert nodes[ob + (i - b)] == h(Piece(base, i - b));
    }
    BelowLeaves(h, cut, leaves);
  }

  lemma KeptPiece(base: Bytes, at: nat, j: nat)
    requires at <= |base| && (j + 1) * PIECE_SIZE <= at
    ensures Piece(base, j) == Piece(base[..at], j)
  {
    SamePiece(base, base[..at], j);
  }

  lemma TruncatingLevel(h: Hasher, target: seq<Hash>, cut: seq<Hash>, nodes: seq<Hash>,
                        oldLvl: seq<Hash>, lvl: seq<Hash>)
    requires Truncating(h, target, cut, nodes, oldLvl, lvl) && |lvl| > 1
    ensures LevelBegin(|lvl|) + |lvl| <= |cut| && LevelBegin(|oldLvl|) <= |nodes| && |lvl| <= |oldLvl|
    ensures (|lvl| + 1) / 2 <= LevelBegin(|lvl|) && (|oldLvl| + 1) / 2 <= LevelBegin(|oldLvl|)
  {
    LevelAbove(|lvl|);
    LevelAbove(|oldLvl|);
  }

  lemma TruncatingRoot(h: Hasher, target: seq<Hash>, cut: seq<Hash>, nodes: seq<Hash>,
                       oldLvl: seq<Hash>, lvl: seq<Hash>)
    requires Truncating(h, target, cut, nodes, oldLvl, lvl) && |lvl| == 1
    ensures cut == target
  {
    BelowRoot(h, target, cut, lvl);
  }

  // the copied parents, with the last one re-hashed, are the level above
  lemma TruncatedLevel(h: Hasher, before: seq<Hash>, cut: seq<Hash>, nodes: seq<Hash>, oldUp: seq<Hash>,
                       lvl: seq<Hash>, begin: nat, oldUpBegin: nat)
    requires |lvl| > 1 && |cut| == |before|
    requires HoldsAt(before, begin, lvl) && HoldsAt(nodes, oldUpBegin, oldUp)
    requires (|lvl| + 1) / 2 <= begin && SharedUpTo(oldUp, Up(h, lvl), (|lvl| - 1) / 2)
    requires forall i :: begin - (|lvl| + 1) / 2 <= i < begin - 1 ==>
      cut[i] == nodes[oldUpBegin + (i - (begin - (|lvl| + 1) / 2))]
    requires cut[begin - 1] == (if |lvl| % 2 == 0
                                then h(before[begin + |lvl| - 2].bytes + before[begin + |lvl| - 1].bytes)
                                else before[begin + |lvl| - 1])
    ensures HoldsAt(cut, begin - (|lvl| + 1) / 2, Up(h, lvl))
  {
    hide Up;
    var up := Up(h, lvl);
    var b := begin - |up|;
    assert up[|up| - 1] == ParentHash(h, lvl, |up| - 1) == cut[begin - 1];
    forall i | b <= i < b + |up| - 1 ensures cut[i] == up[i - b] {
      assert nodes[oldUpBegin + (i - b)] == oldUp[i - b];
    }
  }

  lemma BelowHolds(h: Hasher, target: seq<Hash>, nodes: seq<Hash>, lvl: seq<Hash>)
    requires Below(h, target, nodes, lvl)
    ensures HoldsAt(nodes, LevelBegin(|lvl|), lvl)
  {
  }

  lemma OldAboveHolds(h: Hasher, nodes: seq<Hash>, oldLvl: seq<Hash>)
    requires |oldLvl| > 1 && OldAbove(h, nodes, oldLvl)
    ensures HoldsAt(nodes, LevelBegin(|Up(h, oldLvl)|), Up(h, oldLvl))
  {
    hide Flat, Size;
    FlatShape(h, Up(h, oldLvl));
  }

  lemma TruncatingUp(h: Hasher, target: seq<Hash>, before: seq<Hash>, cut: seq<Hash>, nodes: seq<Hash>,
                     oldLvl: seq<Hash>, lvl: seq<Hash>)
    requires Truncating(h, target, before, nodes, oldLvl, lvl) && |lvl| > 1
    requires |cut| == |before|
    requires var u, ou := (|lvl| + 1) / 2, (|oldLvl| + 1) / 2;
      var begin, oldBegin := LevelBegin(|lvl|), LevelBegin(|oldLvl|);
      && u <= begin && begin + |lvl| <= |cut| && ou <= oldBegin <= |nodes|
      && (forall i :: begin <= i < |cut| ==> cut[i] == before[i])
      && (forall i :: begin - u <= i < begin - 1 ==> cut[i] == nodes[oldBegin - ou + (i - (begin - u))])
      && cut[begin - 1] == (if |lvl| % 2 == 0
                              then h(before[begin + |lvl| - 2].bytes + before[begin + |lvl| - 1].bytes)
                              else before[begin + |lvl| - 1])
    ensures Truncating(h, target, cut, nodes, Up(h, oldLvl), Up(h, lvl))
  {
    hide Flat, Size, Up, Below, OldAbove, HoldsAt, SharedUpTo;
    var up, oldUp := Up(h, lvl), Up(h, oldLvl);
    LevelAbove(|lvl|);
    LevelAbove(|oldLvl|);
    LevelsFit(|oldUp|, |oldUp|);
    SharedUp(h, oldLvl, lvl, |lvl| - 1);
    BelowHolds(h, target, before, lvl);
    OldAboveHolds(h, nodes, oldLvl);
    TruncatedLevel(h, before, cut, nodes, oldUp, lvl, LevelBegin(|lvl|), LevelBegin(|oldUp|));
    BelowUp(h, target, before, cut, lvl);
    OldAboveUp(h, nodes, nodes, oldLvl, |oldLvl|);
  }

  /** Every pair left of the overlap finds its parent in the old tree, at a place
      not right of where the new tree wants it. */
  ghost predicate OldParents(h: Hasher, nodes: seq<Hash>, lvl: seq<Hash>, oldBegin: nat, oldN: nat, ub: nat, o: nat) {
    o >= 2 ==>
      && 1 <= (oldN + 1) / 2 <= oldBegin
      && oldBegin - (oldN + 1) / 2 <= ub
      && forall i :: 0 <= 2 * i && 2 * i + 1 < o && 2 * i + 1 < |lvl| ==>
           && oldBegin - (oldN + 1) / 2 + i < |nodes|
           && nodes[oldBegin - (oldN + 1) / 2 + i] == Up(h, lvl)[i]
  }

  /** The inner levels of the old tree, above `oldLvl`, are still in the front of the array. */
  ghost predicate OldAbove(h: Hasher, nodes: seq<Hash>, oldLvl: seq<Hash>)
    requires |oldLvl| >= 1
  {
    |oldLvl| > 1 ==>
      && LevelBegin(|oldLvl|) <= |nodes|
      && |Flat(h, Up(h, oldLvl))| == LevelBegin(|oldLvl|)
      && forall i :: 0 <= i < LevelBegin(|oldLvl|) ==> nodes[i] == Flat(h, Up(h, oldLvl))[i]
  }

  ghost predicate SharedUpTo(oldLvl: seq<Hash>, lvl: seq<Hash>, o: nat) {
    && o <= |oldLvl| && o <= |lvl|
    && forall j :: 0 <= j < o ==> oldLvl[j] == lvl[j]
  }

  lemma SharedUp(h: Hasher, oldLvl: seq<Hash>, lvl: seq<Hash>, o: nat)
    requires SharedUpTo(oldLvl, lvl, o)
    ensures SharedUpTo(Up(h, oldLvl), Up(h, lvl), o / 2)
  {
  }

  lemma OldAboveUp(h: Hasher, before: seq<Hash>, nodes: seq<Hash>, oldLvl: seq<Hash>, n: nat)
    requires 1 <= |oldLvl| <= n && n > 1
    requires OldAbove(h, before, oldLvl) && |nodes| == |before|
    requires LevelBegin(n) - (n + 1) / 2 == LevelBegin((n + 1) / 2)
    requires 0 <= LevelBegin((n + 1) / 2) <= |nodes|
    requires forall i :: 0 <= i < LevelBegin((n + 1) / 2) ==> nodes[i] == before[i]
    ensures OldAbove(h, nodes, Up(h, oldLvl))
  {
    hide Flat, Size;
    var up := Up(h, oldLvl);
    if |up| > 1 {
      SizeMonotone(|up|, (n + 1) / 2);
      FlatShape(h, up);
      assert |oldLvl| > 1;
      FlatShape(h, oldLvl);
      forall i | 0 <= i < LevelBegin(|up|) ensures nodes[i] == Flat(h, Up(h, up))[i] {
        assert before[i] == Flat(h, up)[i];
      }
    }
  }

  /** The state of a merge that has reached level `lvl`, whose first `o` nodes the
      old tree has too. */
  ghost predicate Merging(h: Hasher, target: seq<Hash>, nodes: seq<Hash>,
                          oldLvl: seq<Hash>, lvl: seq<Hash>, o: int)
  {
    && Below(h, target, nodes, lvl)
    && 1 <= |oldLvl| <= |lvl|
    && OldAbove(h, nodes, oldLvl)
    && 0 <= o && SharedUpTo(oldLvl, lvl, o)
  }

  lemma LevelsFit(m: nat, n: nat)
    requires 1 <= m <= n
    ensures 0 <= LevelBegin(m) <= LevelBegin(n)
  {
    LevelAbove(m);
    SizeMonotone(m, n);
  }

  lemma TreeShape(h: Hasher, data: Bytes)
    ensures var cnt := CeilPiece(|data|);
      && 0 <= LevelBegin(cnt)
      && |Tree(h, data)| == LevelBegin(cnt) + cnt
      && (forall j :: 0 <= j < cnt ==> Tree(h, data)[LevelBegin(cnt) + j] == h(Piece(data, j)))
      && OldAbove(h, Tree(h, data), LeafLevel(h, data))
  {
    hide Flat, Size;
    var leaves := LeafLevel(h, data);
    FlatShape(h, leaves);
    forall j | 0 <= j < |leaves| ensures Tree(h, data)[LevelBegin(|leaves|) + j] == h(Piece(data, j)) {
      assert Tree(h, data)[LevelBegin(|leaves|) + j] == leaves[j];
    }
    if |leaves| > 1 {
      LevelAbove(|leaves|);
      FlatShape(h, Up(h, leaves));
    }
  }

  /** With the leaves in place, a merge is ready to go up. */
  lemma MergingLeaves(h: Hasher, base: Bytes, offset: nat, data: Bytes, before: seq<Hash>, nodes: seq<Hash>)
    requires offset <= |base| && data != []
    requires before == Tree(h, base)
    requires var r := Splice(base, offset, data);
      && 0 <= LevelBegin(CeilPiece(|base|)) <= |before|
      && |nodes| == Size(CeilPiece(|r|)) >= CeilPiece(|r|)
      && LevelBegin(CeilPiece(|base|)) <= |nodes|
      && HoldsAt(nodes, LevelBegin(CeilPiece(|r|)), LeafLevel(h, r))
      && (forall i :: 0 <= i < LevelBegin(CeilPiece(|base|)) ==> nodes[i] == before[i])
    ensures var r := Splice(base, offset, data);
      Merging(h, Tree(h, r), nodes, LeafLevel(h, base), LeafLevel(h, r), FloorPiece(offset))
  {
    hide Flat, Size;
    var r := Splice(base, offset, data);
    TreeShape(h, base);
    BelowLeaves(h, nodes, LeafLevel(h, r));
    forall j | 0 <= j < FloorPiece(offset) ensures LeafLevel(h, base)[j] == LeafLevel(h, r)[j] {
      MergedPiece(base, offset, data, j);
    }
  }

  lemma MergingLevel(h: Hasher, target: seq<Hash>, nodes: seq<Hash>,
                     oldLvl: seq<Hash>, lvl: seq<Hash>, o: int)
    requires Merging(h, target, nodes, oldLvl, lvl, o) && |lvl| > 1
    ensures 0 <= LevelBegin(|oldLvl|) && (|oldLvl| > 1 ==> (|oldLvl| + 1) / 2 <= LevelBegin(|oldLvl|))
    ensures 0 <= LevelBegin(|lvl|) - (|lvl| + 1) / 2 && LevelBegin(|lvl|) + |lvl| <= |nodes|
    ensures HoldsAt(nodes, LevelBegin(|lvl|), lvl)
    ensures OldParents(h, nodes, lvl, LevelBegin(|oldLvl|), |oldLvl|, LevelBegin(|lvl|) - (|lvl| + 1) / 2, o)
  {
    hide Flat, Size;
    LevelAbove(|lvl|);
    LevelAbove(|oldLvl|);
    OldParentsHold(h, nodes, oldLvl, lvl, o);
  }

  lemma MergingRoot(h: Hasher, target: seq<Hash>, nodes: seq<Hash>,
                    oldLvl: seq<Hash>, lvl: seq<Hash>, o: int)
    requires Merging(h, target, nodes, oldLvl, lvl, o) && |lvl| == 1
    ensures nodes == target
  {
    BelowRoot(h, target, nodes, lvl);
  }

  lemma MergingUp(h: Hasher, target: seq<Hash>, before: seq<Hash>, nodes: seq<Hash>,
                  oldLvl: seq<Hash>, lvl: seq<Hash>, o: int)
    requires Merging(h, target, before, oldLvl, lvl, o) && |lvl| > 1
    requires |nodes| == |before|
    requires 0 <= LevelBegin(|lvl|) - (|lvl| + 1) / 2
    requires forall i :: LevelBegin(|lvl|) <= i < |nodes| ==> nodes[i] == before[i]
    requires forall i :: 0 <= i < LevelBegin(|lvl|) - (|lvl| + 1) / 2 ==> nodes[i] == before[i]
    requires HoldsAt(nodes, LevelBegin(|lvl|) - (|lvl| + 1) / 2, Up(h, lvl))
    ensures Merging(h, target, nodes, Up(h, oldLvl), Up(h, lvl), o / 2)
  {
    hide Flat, Size;
    LevelAbove(|lvl|);
    LevelAbove(|oldLvl|);
    LevelsFit(|Up(h, lvl)|, |Up(h, lvl)|);
    BelowUp(h, target, before, nodes, lvl);
    SharedUp(h, oldLvl, lvl, o);
    OldAboveUp(h, before, nodes, oldLvl, |lvl|);
  }

  // where the level above one of n nodes starts
  ghost predicate LevelStep(n: nat)
    requires n >= 1
  {
    && LevelBegin((n + 1) / 2) == (if n == 1 then 0 else LevelBegin(n) - (n + 1) / 2)
    && 0 <= LevelBegin((n + 1) / 2)
    && (LevelBegin((n + 1) / 2) >= 1) == ((n + 1) / 2 > 1)
  }

  lemma LevelStepHolds(n: nat)
    requires n >= 1
    ensures LevelStep(n)
  {
    LevelAbove(n);
    LevelAbove((n + 1) / 2);
  }

  lemma OldParentsHold(h: Hasher, nodes: seq<Hash>, oldLvl: seq<Hash>, lvl: seq<Hash>, o: nat)
    requires 1 <= |oldLvl| <= |lvl| && |lvl| > 1
    requires OldAbove(h, nodes, oldLvl) && SharedUpTo(oldLvl, lvl, o)
    requires 0 <= LevelBegin(|oldLvl|)
    requires 0 <= LevelBegin(|lvl|) - (|lvl| + 1) / 2
    ensures OldParents(h, nodes, lvl, LevelBegin(|oldLvl|), |oldLvl|, LevelBegin(|lvl|) - (|lvl| + 1) / 2, o)
  {
    hide Flat, Size, Up;
    if o >= 2 {
      var up := Up(h, oldLvl);
      SharedUp(h, oldLvl, lvl, o);
      LevelAbove(|oldLvl|);
      LevelAbove(|lvl|);
      SizeMonotone(|up|, (|lvl| + 1) / 2);
      FlatShape(h, up);
      var b := LevelBegin(|up|);
      forall i | 0 <= 2 * i && 2 * i + 1 < o && 2 * i + 1 < |lvl|
        ensures b + i < |nodes| && nodes[b + i] == Up(h, lvl)[i]
      {
        assert nodes[b + i] == Flat(h, up)[b + i] == up[i];
      }
    }
  }

  /** Which piece of the overwritten content comes from where: pieces outside
      the written range are old ones, pieces inside it the staged ones, except
      a first or last piece that holds old bytes too. */
  lemma MergedPiece(base: Bytes, offset: nat, data: Bytes, j: nat)
    requires offset <= |base| && data != []
    requires j < CeilPiece(|Splice(base, offset, data)|)
    ensures var r := Splice(base, offset, data);
      if j < FloorPiece(offset) || j >= CeilPiece(offset + |data|) then
        j < CeilPiece(|base|) && Piece(r, j) == Piece(base, j)
      else
        IsEdge(offset, Min(|base|, offset + |data|), j) || Piece(r, j) == StagedPiece(offset, data, j)
  {
    var r := Splice(base, offset, data);
    SpliceAt(base, offset, data);
    if j < FloorPiece(offset) || j >= CeilPiece(offset + |data|) {
      assert (j + 1) * PIECE_SIZE <= offset || j * PIECE_SIZE >= offset + |data|;
      SamePiece(r, base, j);
    } else if !IsEdge(offset, Min(|base|, offset + |data|), j) {
      assert offset <= j * PIECE_SIZE < offset + |data|;
      assert (j + 1) * PIECE_SIZE <= offset + |data| || offset + |data| >= |base|;
      StagedIsPiece(r, offset, data, j);
    }
  }

  lemma SamePiece(a: Bytes, b: Bytes, j: nat)
    requires Min((j + 1) * PIECE_SIZE, |a|) == Min((j + 1) * PIECE_SIZE, |b|)
    requires forall i :: j * PIECE_SIZE <= i < Min((j + 1) * PIECE_SIZE, |a|) ==> a[i] == b[i]
    ensures Piece(a, j) == Piece(b, j)
  {
  }

  lemma StagedIsPiece(r: Bytes, offset: nat, data: Bytes, j: nat)
    requires offset <= j * PIECE_SIZE
    requires Min((j + 1) * PIECE_SIZE, |r|) == Min((j + 1) * PIECE_SIZE, offset + |data|)
    requires forall i :: j * PIECE_SIZE <= i < Min((j + 1) * PIECE_SIZE, |r|) ==> r[i] == data[i - offset]
    ensures Piece(r, j) == StagedPiece(offset, data, j)
  {
  }

  // the first piece of the write, and the last one written or held before
  predicate IsEdge(offset: nat, overlapEndOffset: nat, j: nat) {
    || (AlignOffset(offset) != 0 && j == FloorPiece(offset))
    || (AlignOffset(overlapEndOffset) != 0 && j == CeilPiece(overlapEndOffset) - 1)
  }

  /** Staging a whole content from its start gives the reference leaves. */
  lemma StagedFromZero(h: Hasher, data: Bytes)
    ensures StagedLeaves(h, 0, data).nodes == LeafLevel(h, data)
  {
    forall j: nat | j < CeilPiece(|data|)
      ensures StagedPiece(0, data, j) == Piece(data, j)
    {
    }
    assert FloorPiece(0) == 0;
  }

  /** Hash a content however it is split over writes, and build its tree. */
  method BuildFromWrites(h: Hasher, writes: seq<Bytes>) returns (tree: MerkleTree)
    ensures fresh(tree) && tree.h == h
    ensures tree.IsTreeOf(Flatten(writes))
    ensures |tree.nodes| >= 1 && tree.RootHash() == Root(h, LeafLevel(h, Flatten(writes)))
  {
    var wtr := new Writer(h);
    for i := 0 to |writes|
      invariant wtr.Valid() && wtr.h == h && wtr.leaves.offset == 0
      invariant wtr.written == Flatten(writes[..i])
    {
      wtr.Write(writes[i]);
      assert writes[..i + 1] == writes[..i] + [writes[i]];
      FlattenOne(writes[..i], writes[i]);
    }
    assert writes[..|writes|] == writes;
    StagedFromZero(h, wtr.written);
    var leaves := wtr.FinishWithLeaves();
    tree := new MerkleTree.Build(h, leaves);
    FlatHeadIsRoot(h, LeafLevel(h, wtr.written));
  }
}
