/** Hashing of binary Merkle trees: the root over a list of leaves, authentication paths, and membership of a
    value under a root. */
module Merkle {
  type Value = nat
  type Node = nat

  /** The two hash functions, arbitrary. */
  datatype Hasher = Hasher(leaf: Value -> Node, pair: (Node, Node) -> Node)

  const EMPTY_LEAF: Node := 0

  // --------------------------------------------------------- specification

  /** The value of a tree of the given height with no leaves. */
  function Default(hs: Hasher, height: nat): Node {
    if height == 0 then EMPTY_LEAF else hs.pair(Default(hs, height - 1), Default(hs, height - 1))
  }

  /** The hash of the leaves below node `pos` of the level at `height`. */
  function Subtree(hs: Hasher, leaves: seq<Value>, height: nat, pos: nat): Node {
    if height == 0 then (if pos < |leaves| then hs.leaf(leaves[pos]) else EMPTY_LEAF)
    else hs.pair(Subtree(hs, leaves, height - 1, 2 * pos), Subtree(hs, leaves, height - 1, 2 * pos + 1))
  }

  function Pow2(n: nat): nat {
    if n == 0 then 1 else 2 * Pow2(n - 1)
  }

  /** Levels needed above `n` leaves: the exponent of the next power of two. */
  function Depth(n: nat): nat {
    if n <= 1 then 0 else 1 + Depth((n + 1) / 2)
  }

  function Root(hs: Hasher, leaves: seq<Value>): Node {
    Subtree(hs, leaves, Depth(|leaves|), 0)
  }

  /** The position of the ancestor `height` levels up. */
  function Up(pos: nat, height: nat): nat {
    if height == 0 then pos else Up(pos, height - 1) / 2
  }

  function Sibling(pos: nat): nat {
    if pos % 2 == 0 then pos + 1 else pos - 1
  }

  /** The hashes beside the path from leaf `index` up to the root. */
  function AuthenticationPath(hs: Hasher, leaves: seq<Value>, index: nat): seq<Node> {
    seq(Depth(|leaves|), h requires 0 <= h => Subtree(hs, leaves, h, Sibling(Up(index, h))))
  }

  /** What a verifier computes from a value and its path. */
  function DigestForPath(hs: Hasher, node: Node, index: nat, path: seq<Node>): Node
    decreases |path|
  {
    if path == [] then node
    else
      var next := if index % 2 == 0 then hs.pair(node, path[0]) else hs.pair(path[0], node);
      DigestForPath(hs, next, index / 2, path[1..])
  }

  // ------------------------------------------------------------- the tree

  /** A node's parent hashes it with its sibling, in order. */
  lemma ParentOf(hs: Hasher, leaves: seq<Value>, height: nat, pos: nat)
    ensures Subtree(hs, leaves, height + 1, pos / 2) ==
      if pos % 2 == 0
      then hs.pair(Subtree(hs, leaves, height, pos), Subtree(hs, leaves, height, Sibling(pos)))
      else hs.pair(Subtree(hs, leaves, height, Sibling(pos)), Subtree(hs, leaves, height, pos))
  {
    assert pos == 2 * (pos / 2) + pos % 2;
  }

  lemma {:induction false} PathClimbs(hs: Hasher, leaves: seq<Value>, index: nat, height: nat)
    requires height <= Depth(|leaves|)
    ensures DigestForPath(hs, Subtree(hs, leaves, height, Up(index, height)), Up(index, height),
                          AuthenticationPath(hs, leaves, index)[height..])
         == Subtree(hs, leaves, Depth(|leaves|), Up(index, Depth(|leaves|)))
    decreases Depth(|leaves|) - height
  {
    hide Subtree, Depth;
    var path := AuthenticationPath(hs, leaves, index);
    if height < Depth(|leaves|) {
      assert path[height..][1..] == path[height + 1..];
      assert path[height..][0] == Subtree(hs, leaves, height, Sibling(Up(index, height)));
      ParentOf(hs, leaves, height, Up(index, height));
      PathClimbs(hs, leaves, index, height + 1);
    }
  }

  lemma {:induction false} UpReachesRoot(n: nat, index: nat)
    requires index < n
    ensures Up(index, Depth(n)) == 0
    decreases n
  {
    if n > 1 {
      UpReachesRoot((n + 1) / 2, index / 2);
      UpHalf(index, Depth((n + 1) / 2));
    }
  }

  lemma {:induction false} UpHalf(pos: nat, height: nat)
    ensures Up(pos, height + 1) == Up(pos / 2, height)
  {
    if height > 0 {
      UpHalf(pos, height - 1);
    }
  }

  /** A leaf's authentication path leads to the root. */
  lemma AuthenticationPathVerifies(hs: Hasher, leaves: seq<Value>, index: nat)
    requires index < |leaves|
    ensures DigestForPath(hs, hs.leaf(leaves[index]), index, AuthenticationPath(hs, leaves, index)) == Root(hs, leaves)
  {
    var path := AuthenticationPath(hs, leaves, index);
    assert path[0..] == path;
    PathClimbs(hs, leaves, index, 0);
    UpReachesRoot(|leaves|, index);
  }

  ghost predicate CollisionFree(hs: Hasher) {
    && (forall v, w :: hs.leaf(v) == hs.leaf(w) ==> v == w)
    && (forall a, b, c, d :: hs.pair(a, b) == hs.pair(c, d) ==> a == c && b == d)
  }

  lemma {:induction false} PathBinds(hs: Hasher, leaves: seq<Value>, index: nat,
                                     height: nat, node: Node, path: seq<Node>)
    requires CollisionFree(hs)
    requires height + |path| == Depth(|leaves|)
    requires DigestForPath(hs, node, Up(index, height), path)
          == Subtree(hs, leaves, Depth(|leaves|), Up(index, Depth(|leaves|)))
    ensures node == Subtree(hs, leaves, height, Up(index, height))
    decreases |path|
  {
    hide Subtree, Depth;
    if path != [] {
      var pos := Up(index, height);
      var next := if pos % 2 == 0 then hs.pair(node, path[0]) else hs.pair(path[0], node);
      PathBinds(hs, leaves, index, height + 1, next, path[1..]);
      ParentOf(hs, leaves, height, pos);
    }
  }

  /** No other value has a path of the right length to the root at that index. */
  lemma MembershipIsSound(hs: Hasher, leaves: seq<Value>, index: nat, value: Value, path: seq<Node>)
    requires CollisionFree(hs)
    requires index < |leaves|
    requires |path| == Depth(|leaves|)
    requires DigestForPath(hs, hs.leaf(value), index, path) == Root(hs, leaves)
    ensures value == leaves[index]
  {
    UpReachesRoot(|leaves|, index);
    PathBinds(hs, leaves, index, 0, hs.leaf(value), path);
  }

  // ----------------------------------------------------- appending a leaf

  lemma {:induction false} AppendElsewhere(hs: Hasher, leaves: seq<Value>, value: Value, height: nat, pos: nat)
    requires pos != Up(|leaves|, height)
    ensures Subtree(hs, leaves + [value], height, pos) == Subtree(hs, leaves, height, pos)
  {
    if height > 0 {
      AppendElsewhere(hs, leaves, value, height - 1, 2 * pos);
      AppendElsewhere(hs, leaves, value, height - 1, 2 * pos + 1);
    }
  }

  lemma {:induction false} EmptySubtree(hs: Hasher, leaves: seq<Value>, height: nat, pos: nat)
    requires |leaves| <= pos * Pow2(height)
    ensures Subtree(hs, leaves, height, pos) == Default(hs, height)
  {
    if height > 0 {
      assert pos * Pow2(height) == (2 * pos) * Pow2(height - 1);
      assert (2 * pos + 1) * Pow2(height - 1) == (2 * pos) * Pow2(height - 1) + Pow2(height - 1);
      EmptySubtree(hs, leaves, height - 1, 2 * pos);
      EmptySubtree(hs, leaves, height - 1, 2 * pos + 1);
    }
  }

  // ------------------------------------------------------- powers and depth

  lemma {:induction false} Pow2Positive(n: nat)
    ensures Pow2(n) >= 1
  {
    if n > 0 {
      Pow2Positive(n - 1);
    }
  }

  lemma {:induction false} Pow2Monotone(m: nat, n: nat)
    requires m <= n
    ensures Pow2(m) <= Pow2(n)
    ensures m < n ==> 2 * Pow2(m) <= Pow2(n)
    decreases n
  {
    if m < n {
      Pow2Monotone(m, n - 1);
    }
  }

  lemma {:induction false} DepthCovers(n: nat)
    ensures n <= Pow2(Depth(n))
  {
    if n > 1 {
      DepthCovers((n + 1) / 2);
    }
  }

  lemma {:induction false} DepthWithin(n: nat, levels: nat)
    requires n <= Pow2(levels)
    ensures Depth(n) <= levels
  {
    if n > 1 {
      DepthWithin((n + 1) / 2, levels - 1);
    }
  }

  lemma {:induction false} DepthOfNext(n: nat)
    ensures Depth(n) <= Depth(n + 1) <= Depth(n) + 1
  {
    if n > 1 {
      if n % 2 == 0 {
        DepthOfNext(n / 2);
        assert (n + 1) / 2 == n / 2 && (n + 2) / 2 == n / 2 + 1;
      } else {
        assert (n + 2) / 2 == (n + 1) / 2;
      }
    }
  }

  lemma {:induction false} UpWithin(pos: nat, height: nat, levels: nat)
    requires height <= levels
    requires pos < Pow2(levels)
    ensures Up(pos, height) < Pow2(levels - height)
  {
    if height > 0 {
      UpWithin(pos, height - 1, levels);
    }
  }
}
