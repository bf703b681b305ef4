/** The tree's buffer and the loops that fill, grow and read it. */
module MerkleTree {
  import opened Core
  import opened Arithmetic
  import opened Merkle

  // ------------------------------------------------------ heap-ordered buffer

  /** Node `pos` of the level at `height` exists in a buffer with `levels` levels above the leaves. */
  predicate InTree(levels: nat, height: nat, pos: nat) {
    height <= levels && pos < Pow2(levels - height)
  }

  function Index(levels: nat, height: nat, pos: nat): (i: nat)
    requires InTree(levels, height, pos)
    ensures i < 2 * Pow2(levels) - 1
  {
    Pow2Positive(levels - height);
    Pow2Monotone(levels - height, levels);
    Pow2(levels - height) - 1 + pos
  }

  lemma IndexInjective(levels: nat, height: nat, pos: nat, height': nat, pos': nat)
    requires InTree(levels, height, pos) && InTree(levels, height', pos')
    requires Index(levels, height, pos) == Index(levels, height', pos')
    ensures height == height' && pos == pos'
  {
    if height < height' {
      Pow2Monotone(levels - height', levels - height);
    } else if height' < height {
      Pow2Monotone(levels - height, levels - height');
    }
  }

  lemma ParentIndex(levels: nat, height: nat, pos: nat)
    requires InTree(levels, height, pos) && height < levels
    ensures InTree(levels, height + 1, pos / 2)
    ensures InTree(levels, height, 2 * (pos / 2)) && InTree(levels, height, 2 * (pos / 2) + 1)
    ensures InTree(levels, height, Sibling(pos))
    ensures var i, parent := Index(levels, height, pos), Index(levels, height + 1, pos / 2);
      && i > 0
      && (i - 1) / 2 == parent
      && (i % 2 == 1 <==> pos % 2 == 0)
      && 2 * parent + 1 == Index(levels, height, 2 * (pos / 2))
      && 2 * parent + 2 == Index(levels, height, 2 * (pos / 2) + 1)
      && Index(levels, height, Sibling(pos)) == if i % 2 == 1 then i + 1 else i - 1
  {
    var width := Pow2(levels - height - 1);
    assert Pow2(levels - height) == 2 * width;
    Pow2Positive(levels - height - 1);
    hide Pow2;
    HeapParent(width, pos);
  }

  /** Positions in a heap: the level below one of `width` nodes starts right after it. */
  lemma HeapParent(width: nat, pos: nat)
    requires pos < 2 * width
    ensures pos / 2 < width && Sibling(pos) < 2 * width
    ensures (2 * width - 1 + pos - 1) / 2 == width - 1 + pos / 2
    ensures (2 * width - 1 + pos) % 2 == 1 <==> pos % 2 == 0
  {
    assert pos == 2 * (pos / 2) + pos % 2;
  }

  /** Every slot of the buffer is some node. */
  lemma {:induction false} NodeAt(levels: nat, i: nat) returns (height: nat, pos: nat)
    requires i < 2 * Pow2(levels) - 1
    ensures InTree(levels, height, pos) && Index(levels, height, pos) == i
    decreases levels
  {
    if i >= Pow2(levels) - 1 {
      height, pos := 0, i - (Pow2(levels) - 1);
    } else {
      height, pos := NodeAt(levels - 1, i);
      height := height + 1;
    }
  }

  // ------------------------------------------------------ bit manipulation

  function NextPowerOfTwo(n: nat): nat {
    if n <= 1 then 1 else 2 * NextPowerOfTwo((n + 1) / 2)
  }

  function TrailingZeros(n: nat): nat
    requires n > 0
  {
    if n % 2 == 1 then 0 else 1 + TrailingZeros(n / 2)
  }

  /** The largest power of two not above `n`. */
  function PrevPowerOfTwo(n: nat): nat {
    if n == 0 then 0 else if n == 1 then 1 else 2 * PrevPowerOfTwo(n / 2)
  }

  lemma {:induction false} NextPowerOfTwoIsPow2(n: nat)
    ensures NextPowerOfTwo(n) == Pow2(Depth(n))
  {
    if n > 1 {
      NextPowerOfTwoIsPow2((n + 1) / 2);
    }
  }

  lemma {:induction false} TrailingZerosOfPow2(n: nat)
    ensures Pow2(n) > 0 && TrailingZeros(Pow2(n)) == n
  {
    if n > 0 {
      TrailingZerosOfPow2(n - 1);
    }
  }

  lemma {:induction false} PrevPowerOfTwoAt(n: nat, offset: nat)
    requires offset < Pow2(n)
    ensures PrevPowerOfTwo(Pow2(n) + offset) == Pow2(n)
  {
    if n > 0 {
      PrevPowerOfTwoAt(n - 1, offset / 2);
      assert (Pow2(n) + offset) / 2 == Pow2(n - 1) + offset / 2;
    }
  }

  // --------------------------------------------------- what the buffer holds

  /** Levels up to the root hash the leaves; levels above it were never written. */
  function Kept(hs: Hasher, leaves: seq<Value>, height: nat, pos: nat): Node {
    if height <= Depth(|leaves|) then Subtree(hs, leaves, height, pos) else Default(hs, height)
  }

  ghost predicate Holds(hs: Hasher, nodes: seq<Node>, levels: nat, leaves: seq<Value>) {
    && |nodes| == 2 * Pow2(levels) - 1
    && forall h: nat, p: nat {:trigger Index(levels, h, p)} :: InTree(levels, h, p) ==>
         nodes[Index(levels, h, p)] == Kept(hs, leaves, h, p)
  }

  /** While a leaf is being appended: the levels up to `done` include it, the others do not yet. */
  function Climbing(hs: Hasher, leaves: seq<Value>, value: Value, done: nat, height: nat, pos: nat): Node {
    if height <= done then Subtree(hs, leaves + [value], height, pos) else Kept(hs, leaves, height, pos)
  }

  ghost predicate HoldsUpTo(hs: Hasher, nodes: seq<Node>, levels: nat, leaves: seq<Value>, value: Value, done: nat) {
    && |nodes| == 2 * Pow2(levels) - 1
    && forall h: nat, p: nat {:trigger Index(levels, h, p)} :: InTree(levels, h, p) ==>
         nodes[Index(levels, h, p)] == Climbing(hs, leaves, value, done, h, p)
  }

  /** On the level above `done`, only the new leaf's ancestor changes. */
  lemma NextLevelElsewhere(hs: Hasher, leaves: seq<Value>, value: Value, height: nat, pos: nat)
    requires height <= Depth(|leaves| + 1)
    requires pos != Up(|leaves|, height)
    ensures Kept(hs, leaves, height, pos) == Subtree(hs, leaves + [value], height, pos)
  {
    hide Subtree, Depth, Pow2, Up, Default;
    var n := |leaves|;
    AppendElsewhere(hs, leaves, value, height, pos);
    if height > Depth(n) {
      DepthOfNext(n);
      NewLevel(n);
      MulLe(1, pos, Pow2(height));
      EmptySubtree(hs, leaves, height, pos);
    }
  }

  /** One level above the root everything still lies under the leftmost node. */
  lemma NewLevel(n: nat)
    ensures Up(n, Depth(n) + 1) == 0 && n <= Pow2(Depth(n) + 1)
  {
    DepthCovers(n);
    Pow2Positive(Depth(n));
    UpWithin(n, Depth(n) + 1, Depth(n) + 1);
  }

  lemma ClimbStart(hs: Hasher, nodes: seq<Node>, levels: nat, leaves: seq<Value>, value: Value)
    requires Holds(hs, nodes, levels, leaves)
    requires |leaves| < Pow2(levels)
    ensures InTree(levels, 0, |leaves|)
    ensures HoldsUpTo(hs, nodes[Index(levels, 0, |leaves|) := hs.leaf(value)], levels, leaves, value, 0)
  {
    var at := Index(levels, 0, |leaves|);
    var written := nodes[at := hs.leaf(value)];
    forall h: nat, p: nat | InTree(levels, h, p)
      ensures written[Index(levels, h, p)] == Climbing(hs, leaves, value, 0, h, p)
    {
      if h == 0 && p != |leaves| {
        AppendElsewhere(hs, leaves, value, 0, p);
      }
      if Index(levels, h, p) == at {
        IndexInjective(levels, h, p, 0, |leaves|);
      }
    }
  }

  lemma SubtreeOfChildren(hs: Hasher, leaves: seq<Value>, height: nat, pos: nat)
    ensures Subtree(hs, leaves, height + 1, pos)
         == hs.pair(Subtree(hs, leaves, height, 2 * pos), Subtree(hs, leaves, height, 2 * pos + 1))
  {
  }

  /** Where the next write of a climb goes, and where it reads from. */
  lemma ClimbPosition(levels: nat, n: nat, done: nat)
    requires n < Pow2(levels)
    requires done < Depth(n + 1)
    ensures done < levels && InTree(levels, done, Up(n, done)) && InTree(levels, done + 1, Up(n, done + 1))
    ensures var q, parent := Up(n, done + 1), Index(levels, done + 1, Up(n, done + 1));
      && (Index(levels, done, Up(n, done)) - 1) / 2 == parent
      && InTree(levels, done, 2 * q) && InTree(levels, done, 2 * q + 1)
      && 2 * parent + 1 == Index(levels, done, 2 * q)
      && 2 * parent + 2 == Index(levels, done, 2 * q + 1)
  {
    assert Up(n, done + 1) == Up(n, done) / 2;
    hide Depth, Pow2, Up, Index, InTree;
    DepthWithin(n + 1, levels);
    assert InTree(levels, done, Up(n, done)) by { UpInTree(levels, n, done); }
    ParentIndex(levels, done, Up(n, done));
  }

  lemma UpZero(n: nat)
    ensures Up(n, 0) == n
  {
  }

  lemma UpInTree(levels: nat, n: nat, height: nat)
    requires height <= levels && n < Pow2(levels)
    ensures InTree(levels, height, Up(n, height))
  {
    UpWithin(n, height, levels);
  }

  lemma ClimbWrite(hs: Hasher, nodes: seq<Node>, levels: nat, leaves: seq<Value>, value: Value, done: nat, q: nat)
    requires HoldsUpTo(hs, nodes, levels, leaves, value, done)
    requires done < Depth(|leaves| + 1)
    requires q == Up(|leaves|, done + 1)
    requires InTree(levels, done, 2 * q) && InTree(levels, done, 2 * q + 1) && InTree(levels, done + 1, q)
    ensures var hash := hs.pair(nodes[Index(levels, done, 2 * q)], nodes[Index(levels, done, 2 * q + 1)]);
      HoldsUpTo(hs, nodes[Index(levels, done + 1, q) := hash], levels, leaves, value, done + 1)
  {
    hide Kept, Depth, Subtree, Pow2, Up, Index, InTree;
    var parent := Index(levels, done + 1, q);
    var hash := hs.pair(nodes[Index(levels, done, 2 * q)], nodes[Index(levels, done, 2 * q + 1)]);
    SubtreeOfChildren(hs, leaves + [value], done, q);
    var written := nodes[parent := hash];
    forall h: nat, p: nat | InTree(levels, h, p)
      ensures written[Index(levels, h, p)] == Climbing(hs, leaves, value, done + 1, h, p)
    {
      if Index(levels, h, p) == parent {
        IndexInjective(levels, h, p, done + 1, q);
      } else if h == done + 1 {
        NextLevelElsewhere(hs, leaves, value, h, p);
      }
    }
  }

  lemma ClimbStep(hs: Hasher, nodes: seq<Node>, levels: nat, leaves: seq<Value>, value: Value, done: nat)
    requires HoldsUpTo(hs, nodes, levels, leaves, value, done)
    requires |leaves| < Pow2(levels)
    requires done < Depth(|leaves| + 1)
    ensures done < levels && InTree(levels, done, Up(|leaves|, done)) && InTree(levels, done + 1, Up(|leaves|, done + 1))
    ensures var parent := (Index(levels, done, Up(|leaves|, done)) - 1) / 2;
      && parent == Index(levels, done + 1, Up(|leaves|, done + 1))
      && 2 * parent + 2 < |nodes|
      && HoldsUpTo(hs, nodes[parent := hs.pair(nodes[2 * parent + 1], nodes[2 * parent + 2])], levels, leaves, value,
          done + 1)
  {
    assert |nodes| == 2 * Pow2(levels) - 1;
    hide *;
    ClimbPosition(levels, |leaves|, done);
    ClimbWrite(hs, nodes, levels, leaves, value, done, Up(|leaves|, done + 1));
  }

  lemma ClimbEnd(hs: Hasher, nodes: seq<Node>, levels: nat, leaves: seq<Value>, value: Value)
    requires HoldsUpTo(hs, nodes, levels, leaves, value, Depth(|leaves| + 1))
    ensures Holds(hs, nodes, levels, leaves + [value])
  {
    hide Depth, Subtree;
    DepthOfNext(|leaves|);
    forall h: nat, p: nat | InTree(levels, h, p)
      ensures nodes[Index(levels, h, p)] == Kept(hs, leaves + [value], h, p)
    {
      assert nodes[Index(levels, h, p)] == Climbing(hs, leaves, value, Depth(|leaves| + 1), h, p);
    }
  }

  /** The buffer of an empty tree, level by level from the top. */
  method DefaultNodes(hs: Hasher, levels: nat) returns (nodes: seq<Node>)
    ensures Holds(hs, nodes, levels, [])
    ensures forall h: nat, p: nat {:trigger Index(levels, h, p)} :: InTree(levels, h, p) ==>
      nodes[Index(levels, h, p)] == Default(hs, h)
  {
    nodes := [];
    for level := 0 to levels + 1
      invariant |nodes| == Pow2(level) - 1
      invariant forall h: nat, p: nat {:trigger Index(levels, h, p)} :: InTree(levels, h, p) && levels - h < level ==>
        Index(levels, h, p) < |nodes| && nodes[Index(levels, h, p)] == Default(hs, h)
    {
      var value := Default(hs, levels - level);
      ghost var before := nodes;
      nodes := nodes + seq(Pow2(level), _ => value);
      forall h: nat, p: nat | InTree(levels, h, p) && levels - h < level + 1
        ensures Index(levels, h, p) < |nodes| && nodes[Index(levels, h, p)] == Default(hs, h)
      {
        if levels - h < level {
          assert nodes[Index(levels, h, p)] == before[Index(levels, h, p)];
        }
      }
    }
    forall h: nat, p: nat | InTree(levels, h, p)
      ensures nodes[Index(levels, h, p)] == Kept(hs, [], h, p)
    {
      EmptySubtree(hs, [], h, p);
    }
  }

  /** Copying a full buffer into the left half of one twice its size keeps what it holds. */
  lemma GrownHolds(hs: Hasher, nodes: seq<Node>, levels: nat, leaves: seq<Value>, grown: seq<Node>)
    requires Holds(hs, nodes, levels, leaves)
    requires |leaves| <= Pow2(levels)
    requires |grown| == 2 * Pow2(levels + 1) - 1
    requires forall h: nat, p: nat {:trigger Index(levels + 1, h, p)} :: InTree(levels + 1, h, p) ==>
      grown[Index(levels + 1, h, p)] ==
        if InTree(levels, h, p) then nodes[Index(levels, h, p)] else Default(hs, h)
    ensures Holds(hs, grown, levels + 1, leaves)
  {
    hide Depth, Subtree;
    DepthWithin(|leaves|, levels);
    forall h: nat, p: nat | InTree(levels + 1, h, p)
      ensures grown[Index(levels + 1, h, p)] == Kept(hs, leaves, h, p)
    {
      if !InTree(levels, h, p) && h <= levels {
        SplitPow2(levels, h);
        assert Pow2(levels - h) * Pow2(h) <= p * Pow2(h);
        EmptySubtree(hs, leaves, h, p);
      }
    }
  }

  lemma {:induction false} SplitPow2(n: nat, k: nat)
    requires k <= n
    ensures Pow2(n - k) * Pow2(k) == Pow2(n)
  {
    if k > 0 {
      SplitPow2(n - 1, k - 1);
    }
  }

  /** The first `n` slots of the old buffer have been copied into the left half of the new one. */
  ghost predicate Copied(hs: Hasher, nodes: seq<Node>, levels: nat, grown: seq<Node>, n: nat) {
    && |nodes| == 2 * Pow2(levels) - 1
    && |grown| == 2 * Pow2(levels + 1) - 1
    && forall h: nat, p: nat {:trigger Index(levels + 1, h, p)} :: InTree(levels + 1, h, p) ==>
         grown[Index(levels + 1, h, p)] ==
           if InTree(levels, h, p) && Index(levels, h, p) < n then nodes[Index(levels, h, p)] else Default(hs, h)
  }

  lemma CopyStep(hs: Hasher, nodes: seq<Node>, levels: nat, grown: seq<Node>, i: nat)
    requires Copied(hs, nodes, levels, grown, i)
    requires i < |nodes|
    ensures i + PrevPowerOfTwo(i + 1) < |grown|
    ensures Copied(hs, nodes, levels, grown[i + PrevPowerOfTwo(i + 1) := nodes[i]], i + 1)
  {
    hide Default;
    var height, pos := NodeAt(levels, i);
    PrevPowerOfTwoAt(levels - height, pos);
    assert InTree(levels + 1, height, pos);
    var at := Index(levels + 1, height, pos);
    assert at == i + PrevPowerOfTwo(i + 1);
    var written := grown[at := nodes[i]];
    forall h: nat, p: nat | InTree(levels + 1, h, p)
      ensures written[Index(levels + 1, h, p)] ==
        if InTree(levels, h, p) && Index(levels, h, p) < i + 1 then nodes[Index(levels, h, p)] else Default(hs, h)
    {
      if Index(levels + 1, h, p) == at {
        IndexInjective(levels + 1, h, p, height, pos);
      } else if InTree(levels, h, p) && Index(levels, h, p) == i {
        IndexInjective(levels, h, p, height, pos);
      }
    }
  }

  /** Copies a buffer into one twice its size: each level moves one level down, to its left half. */
  method DoubledNodes(hs: Hasher, nodes: seq<Node>, levels: nat, ghost leaves: seq<Value>) returns (grown: seq<Node>)
    requires Holds(hs, nodes, levels, leaves)
    requires |leaves| <= Pow2(levels)
    ensures Holds(hs, grown, levels + 1, leaves)
  {
    hide Holds, Kept, Default, Pow2;
    grown := DefaultNodes(hs, levels + 1);
    assert Copied(hs, nodes, levels, grown, 0) by { NothingCopied(hs, nodes, levels, leaves, grown); }
    for i := 0 to |nodes|
      invariant Copied(hs, nodes, levels, grown, i)
    {
      CopyStep(hs, nodes, levels, grown, i);
      grown := grown[i + PrevPowerOfTwo(i + 1) := nodes[i]];
    }
    GrownHolds(hs, nodes, levels, leaves, grown);
  }

  lemma NothingCopied(hs: Hasher, nodes: seq<Node>, levels: nat, leaves: seq<Value>, grown: seq<Node>)
    requires Holds(hs, nodes, levels, leaves)
    requires Holds(hs, grown, levels + 1, [])
    ensures Copied(hs, nodes, levels, grown, 0)
  {
    forall h: nat, p: nat {:trigger Index(levels + 1, h, p)} | InTree(levels + 1, h, p)
      ensures grown[Index(levels + 1, h, p)] == Default(hs, h)
    {
      EmptySubtree(hs, [], h, p);
    }
  }

  /** Rehashes the ancestors of a freshly written leaf, up to the root of the grown tree. */
  method ClimbFromLeaf(hs: Hasher, buffer: seq<Node>, leafIndex: nat, depth: nat,
                       ghost levels: nat, ghost leaves: seq<Value>, ghost value: Value)
    returns (nodes: seq<Node>)
    requires |leaves| < Pow2(levels)
    requires depth == Depth(|leaves| + 1)
    requires InTree(levels, 0, |leaves|) && leafIndex == Index(levels, 0, |leaves|)
    requires HoldsUpTo(hs, buffer, levels, leaves, value, 0)
    ensures Holds(hs, nodes, levels, leaves + [value])
  {
    hide *;
    UpZero(|leaves|);
    nodes := buffer;
    var nodeIndex := leafIndex;
    for level := 0 to depth
      invariant InTree(levels, level, Up(|leaves|, level)) && nodeIndex == Index(levels, level, Up(|leaves|, level))
      invariant HoldsUpTo(hs, nodes, levels, leaves, value, level)
    {
      ClimbStep(hs, nodes, levels, leaves, value, level);
      var parent := (nodeIndex - 1) / 2;
      var leftChild, rightChild := nodes[2 * parent + 1], nodes[2 * parent + 2];
      nodes := nodes[parent := hs.pair(leftChild, rightChild)];
      nodeIndex := parent;
    }
    ClimbEnd(hs, nodes, levels, leaves, value);
  }

  /** One step up a path reads the next hash of the authentication path. */
  lemma PathStep(hs: Hasher, nodes: seq<Node>, levels: nat, leaves: seq<Value>, index: nat, level: nat)
    requires Holds(hs, nodes, levels, leaves)
    requires level < Depth(|leaves|) <= levels
    requires InTree(levels, level, Up(index, level))
    ensures InTree(levels, level + 1, Up(index, level + 1))
    ensures var i := Index(levels, level, Up(index, level));
      && i > 0
      && (i - 1) / 2 == Index(levels, level + 1, Up(index, level + 1))
      && var sibling := if i % 2 == 1 then i + 1 else i - 1;
         sibling < |nodes| && nodes[sibling] == AuthenticationPath(hs, leaves, index)[level]
  {
    hide Subtree, Depth;
    ParentIndex(levels, level, Up(index, level));
  }

  lemma LeafPosition(levels: nat, index: nat)
    requires index < Pow2(levels)
    ensures InTree(levels, 0, index) && Index(levels, 0, index) == Pow2(levels) + index - 1
  {
  }

  lemma PathEnds(hs: Hasher, levels: nat, leaves: seq<Value>, index: nat)
    requires index < |leaves| <= Pow2(levels)
    ensures Up(index, 0) == index && Up(index, Depth(|leaves|)) == 0
    ensures |AuthenticationPath(hs, leaves, index)| == Depth(|leaves|) <= levels
  {
    UpReachesRoot(|leaves|, index);
    DepthWithin(|leaves|, levels);
  }

  method CollectPath(hs: Hasher, nodes: seq<Node>, leafIndex: nat, rootIndex: nat,
                     ghost levels: nat, ghost leaves: seq<Value>, ghost index: nat)
    returns (path: seq<Node>)
    requires Holds(hs, nodes, levels, leaves)
    requires index < |leaves| <= Pow2(levels)
    requires InTree(levels, 0, index) && leafIndex == Index(levels, 0, index)
    requires InTree(levels, Depth(|leaves|), 0) && rootIndex == Index(levels, Depth(|leaves|), 0)
    ensures path == AuthenticationPath(hs, leaves, index)
  {
    hide *;
    ghost var whole := AuthenticationPath(hs, leaves, index);
    PathEnds(hs, levels, leaves, index);
    path := [];
    var nodeIndex := leafIndex;
    while nodeIndex != rootIndex
      invariant |path| <= |whole| && path == whole[..|path|]
      invariant InTree(levels, |path|, Up(index, |path|))
      invariant nodeIndex == Index(levels, |path|, Up(index, |path|))
      decreases |whole| - |path|
    {
      assert |path| < |whole|;
      PathStep(hs, nodes, levels, leaves, index, |path|);
      assert whole[..|path| + 1] == whole[..|path|] + [whole[|path|]];
      // Left children have odd indices, and right children have even indices.
      var isLeftChild := nodeIndex % 2 == 1;
      var siblingIndex := if isLeftChild then nodeIndex + 1 else nodeIndex - 1;
      path := path + [nodes[siblingIndex]];
      nodeIndex := (nodeIndex - 1) / 2;
    }
    IndexInjective(levels, |path|, Up(index, |path|), |whole|, 0);
    assert whole[..|whole|] == whole;
  }

  // ------------------------------------------------------------- the object

  class MerkleTree {
    const hs: Hasher
    var nodes: seq<Node>
    var capacity: nat
    var length: nat
    ghost var leaves: seq<Value>
    ghost var levels: nat

    ghost predicate Valid()
      reads this
    {
      && capacity == Pow2(levels)
      && length == |leaves| <= capacity
      && Holds(hs, nodes, levels, leaves)
    }

    constructor WithCapacity(hs: Hasher, requested: nat)
      ensures Valid()
      ensures this.hs == hs && leaves == []
    {
      this.hs := hs;
      capacity := NextPowerOfTwo(requested);
      length := 0;
      leaves := [];
      levels := Depth(requested);
      new;
      NextPowerOfTwoIsPow2(requested);
      TrailingZerosOfPow2(levels);
      nodes := DefaultNodes(hs, TrailingZeros(capacity));
    }

    function CurrentDepth(): nat
      reads this
    {
      var n := NextPowerOfTwo(length);
      NextPowerOfTwoIsPow2(length);
      Pow2Positive(Merkle.Depth(length));
      TrailingZeros(n)
    }

    lemma CurrentDepthIs()
      ensures CurrentDepth() == Merkle.Depth(length)
    {
      NextPowerOfTwoIsPow2(length);
      TrailingZerosOfPow2(Merkle.Depth(length));
    }

    function RootIndex(): (i: nat)
      requires Valid()
      reads this
      ensures InTree(levels, Merkle.Depth(|leaves|), 0)
      ensures i == Index(levels, Merkle.Depth(|leaves|), 0)
    {
      CurrentDepthIs();
      TrailingZerosOfPow2(levels);
      DepthWithin(length, levels);
      Pow2Positive(levels - Merkle.Depth(length));
      var capacityDepth := TrailingZeros(capacity);
      if CurrentDepth() == capacityDepth then 0 else Pow2(capacityDepth - CurrentDepth()) - 1
    }

    /** The root is the hash of the leaves, whatever the capacity. */
    method RootNode() returns (root: Node)
      requires Valid()
      ensures root == Root(hs, leaves)
    {
      root := nodes[RootIndex()];
    }

    method ReallocateToDoubleCapacity()
      requires Valid()
      modifies this
      ensures Valid()
      ensures capacity == 2 * old(capacity)
      ensures leaves == old(leaves) && length == old(length)
    {
      TrailingZerosOfPow2(levels);
      var grown := DoubledNodes(hs, nodes, TrailingZeros(capacity), leaves);
      nodes, capacity, levels := grown, 2 * capacity, levels + 1;
    }

    /** Appends a leaf and returns its index. */
    method Insert(value: Value) returns (index: nat)
      requires Valid()
      modifies this
      ensures Valid()
      ensures index == |old(leaves)|
      ensures leaves == old(leaves) + [value]
    {
      if length == capacity {
        Pow2Positive(levels);
        ReallocateToDoubleCapacity();
      }
      index := length;
      var nodeIndex := index + capacity - 1;
      ClimbStart(hs, nodes, levels, leaves, value);
      nodes := nodes[nodeIndex := hs.leaf(value)];
      length := length + 1;
      CurrentDepthIs();
      nodes := ClimbFromLeaf(hs, nodes, nodeIndex, CurrentDepth(), levels, leaves, value);
      leaves := leaves + [value];
    }

    /** Answers exactly for the inserted leaves, with a path that leads to the current root. */
    method GetAuthenticationPathFor(index: nat) returns (r: Option<seq<Node>>)
      requires Valid()
      ensures r.Some? <==> index < |leaves|
      ensures r.Some? ==> r.value == AuthenticationPath(hs, leaves, index)
      ensures r.Some? ==> DigestForPath(hs, hs.leaf(leaves[index]), index, r.value) == Root(hs, leaves)
    {
      hide Merkle.Depth, Subtree, DigestForPath, AuthenticationPath, Root,
           Holds, Pow2, InTree, Index, NextPowerOfTwo, TrailingZeros;
      if index >= length {
        return None;
      }
      AuthenticationPathVerifies(hs, leaves, index);
      LeafPosition(levels, index);
      var path := CollectPath(hs, nodes, capacity + index - 1, RootIndex(), levels, leaves, index);
      return Some(path);
    }
  }
}
