/**
 Proofs about the tree that an HSM, which knows only the root hash, accepts
 from the untrusted store.
 */
module MerkleProofs {
  import opened Wrappers
  import opened OwnedRanges
  import opened MerkleTree
  import opened Bits

  /** A node as it is sent: its branches hold hashes. */
  datatype ProofNode = ProofNode(left: Option<Branch>, right: Option<Branch>) {
    function Side(bit: bool): Option<Branch> {
      if bit then right else left
    }
  }

  datatype ReadProof = ReadProof(key: Key, range: OwnedRange, leaf: Option<Record>, path: seq<ProofNode>, rootHash: Tree)

  /** `Panicked` where an assertion fails, as for the hash of an inner node that lacks a branch. */
  datatype Verdict = Verified | Invalid | Panicked

  /** The hash of a node. */
  function CalcHash(range: OwnedRange, root: bool, n: ProofNode): Option<Tree> {
    if root then Some(Node(Some(range), n.left, n.right))
    else if n.left.Some? && n.right.Some? then Some(Node(None, n.left, n.right))
    else None
  }

  /** Compares the hash of a node with what it should be. */
  function CheckHash(range: OwnedRange, root: bool, n: ProofNode, hash: Tree): Verdict {
    match CalcHash(range, root, n)
    case None => Panicked
    case Some(h) => if h == hash then Verified else Invalid
  }

  /** Each branch starts with the bit of its side. */
  predicate Directed(n: ProofNode) {
    && (n.left.Some? ==> n.left.value.prefix != [] && !n.left.value.prefix[0])
    && (n.right.Some? ==> n.right.value.prefix != [] && n.right.value.prefix[0])
  }

  /** Builds the node anew for its hash, which asserts that the branches are on their sides. */
  function CheckRebuilt(range: OwnedRange, root: bool, n: ProofNode, hash: Tree): Verdict {
    if Directed(n) then CheckHash(range, root, n, hash) else Panicked
  }

  /** Walks down the path from the node at depth `at`, whose hash should be `hash`. */
  function VerifyPath(proof: ReadProof, at: nat, root: bool, hash: Tree, path: seq<ProofNode>): Verdict
    requires path != [] && at < |proof.key|
    decreases |path|
  {
    var node, rest := path[0], path[1..];
    match node.Side(proof.key[at])
    case None =>
      if proof.leaf.Some? || rest != [] then Invalid else CheckHash(proof.range, root, node, hash)
    case Some(b) =>
      var tail := proof.key[at..];
      if rest == [] then
        if (if proof.leaf.Some? then tail != b.prefix || Leaf(proof.key, proof.leaf.value) != b.child else b.prefix <= tail)
        then Invalid
        else if proof.leaf.Some? then CheckRebuilt(proof.range, root, node, hash)
        else CheckHash(proof.range, root, node, hash)
      else if |b.prefix| > |tail| then Panicked
      else if !(b.prefix <= tail) then Invalid
      else if |b.prefix| == |tail| then Panicked
      else
        var below := VerifyPath(proof, at + |b.prefix|, false, b.child, rest);
        if below.Verified? then CheckRebuilt(proof.range, root, node, hash) else below
  }

  function VerifyProof(proof: ReadProof): Verdict
    requires |proof.key| == NUM_BITS
  {
    if proof.path == [] then Invalid
    else if !proof.range.Valid() then Panicked
    else if !InRange(proof.range, proof.key) then Invalid
    else VerifyPath(proof, 0, true, proof.rootHash, proof.path)
  }

  predicate InRange(range: OwnedRange, key: Key) {
    range.start <= BitValue(key) <= range.end
  }

  /** A node as it would be sent. */
  function Sent(t: Tree): ProofNode
    requires t.Node?
  {
    ProofNode(t.left, t.right)
  }

  /** The proof says what a lookup in the tree finds. */
  ghost predicate Truthful(proof: ReadProof, at: nat, t: Tree, path: seq<ProofNode>)
    requires t.Node? && at <= |proof.key|
  {
    var f := Descend(t, at, proof.key);
    && proof.leaf == f.record && |path| == |f.path|
    && forall i :: 0 <= i < |path| ==> f.path[i].Node? && path[i] == Sent(f.path[i])
  }

  /** The range that the hash of a node covers. */
  function Covered(range: OwnedRange, root: bool): Option<OwnedRange> {
    if root then Some(range) else None
  }

  lemma TruthfulOn(proof: ReadProof, at: nat, t: Tree, b: Branch, path: seq<ProofNode>)
    requires t.Node? && at < |proof.key| && path != [] && t.Side(proof.key[at]) == Some(b)
    requires b.prefix <= proof.key[at..] && b.child.Node?
    ensures Truthful(proof, at, t, path) <==> path[0] == Sent(t) && Truthful(proof, at + |b.prefix|, b.child, path[1..])
  {
    var rest := Descend(b.child, at + |b.prefix|, proof.key);
    var f := Descend(t, at, proof.key);
    assert f.path == [t] + rest.path;
    assert forall i :: 0 <= i < |rest.path| ==> f.path[i + 1] == rest.path[i];
    if Truthful(proof, at, t, path) {
      forall i | 0 <= i < |path[1..]| ensures rest.path[i].Node? && path[1..][i] == Sent(rest.path[i]) {
        assert f.path[i + 1].Node? && path[i + 1] == Sent(f.path[i + 1]);
      }
    }
    if path[0] == Sent(t) && Truthful(proof, at + |b.prefix|, b.child, path[1..]) {
      forall i | 0 <= i < |path| ensures f.path[i].Node? && path[i] == Sent(f.path[i]) {
        if i > 0 { assert rest.path[i - 1].Node? && path[1..][i - 1] == Sent(rest.path[i - 1]); }
      }
    }
  }

  /** In a well-formed tree a leaf that is reached is the leaf of the key. */
  lemma LeafOfKey(t: Tree, key: Key, at: nat, root: bool, b: Branch)
    requires at < |key| == NUM_BITS && t.Node? && WellFormed(t, key[..at], root) && t.Side(key[at]) == Some(b) && b.child.Leaf?
    ensures b.prefix <= key[at..] <==> b.prefix == key[at..]
    ensures b.prefix == key[at..] ==> b.child.key == key
  {
    assert WellFormed(b.child, key[..at] + b.prefix, false);
    assert key[..at] + key[at..] == key;
  }

  /** Verifying where the way goes on below the node. */
  lemma VerifyOn(proof: ReadProof, at: nat, root: bool, hash: Tree, path: seq<ProofNode>, b: Branch)
    requires path != [] && at < |proof.key| && path[0].Side(proof.key[at]) == Some(b)
    requires b.prefix <= proof.key[at..] && b.child.Node? && |b.prefix| < |proof.key| - at
    requires CheckHash(proof.range, root, path[0], hash) == Verified && Directed(path[0])
    ensures VerifyPath(proof, at, root, hash, path) == Verified <==>
            path[1..] != [] && VerifyPath(proof, at + |b.prefix|, false, b.child, path[1..]) == Verified
  {}

  /** Verifying where the way ends at the node. */
  lemma VerifyHere(proof: ReadProof, at: nat, root: bool, hash: Tree, path: seq<ProofNode>)
    requires path != [] && at < |proof.key| == NUM_BITS && hash.Node? && WellFormed(hash, proof.key[..at], root)
    requires path[0] == Sent(hash) && CheckHash(proof.range, root, path[0], hash) == Verified
    requires var side := hash.Side(proof.key[at]); side.Some? && side.value.prefix <= proof.key[at..] ==> side.value.child.Leaf?
    ensures VerifyPath(proof, at, root, hash, path) == Verified <==> Truthful(proof, at, hash, path)
  {
    var side := hash.Side(proof.key[at]);
    SentDirected(hash, proof.key[..at], root);
    if side.Some? && side.value.child.Leaf? { LeafOfKey(hash, proof.key, at, root, side.value); }
    if side.Some? && path[1..] != [] && side.value.prefix <= proof.key[at..] {
      assert side.value.prefix == proof.key[at..];
    }
  }

  /** A path is accepted exactly if it is the way to the key. */
  lemma {:induction false} PathExact(proof: ReadProof, at: nat, root: bool, hash: Tree, path: seq<ProofNode>)
    requires at < |proof.key| == NUM_BITS && path != [] && WellFormed(hash, proof.key[..at], root)
    ensures VerifyPath(proof, at, root, hash, path) == Verified <==>
            hash.Node? && hash.range == Covered(proof.range, root) && Truthful(proof, at, hash, path)
    decreases |path|
  {
    if CheckHash(proof.range, root, path[0], hash) == Verified { NodeExact(proof, at, root, hash, path); }
  }

  lemma SentDirected(t: Tree, p: seq<bool>, root: bool)
    requires WellFormed(t, p, root) && t.Node?
    ensures Directed(Sent(t))
  {}

  lemma {:induction false} NodeExact(proof: ReadProof, at: nat, root: bool, hash: Tree, path: seq<ProofNode>)
    requires at < |proof.key| == NUM_BITS && path != [] && WellFormed(hash, proof.key[..at], root)
    requires hash.Node? && path[0] == Sent(hash) && CheckHash(proof.range, root, path[0], hash) == Verified
    ensures VerifyPath(proof, at, root, hash, path) == Verified <==> Truthful(proof, at, hash, path)
    decreases |path|, 0
  {
    var side := hash.Side(proof.key[at]);
    SentDirected(hash, proof.key[..at], root);
    if side.Some? && side.value.prefix <= proof.key[at..] && side.value.child.Node? {
      var b := side.value;
      NodeBelow(hash, proof.key, at, root, b);
      TruthfulOn(proof, at, hash, b, path);
      VerifyOn(proof, at, root, hash, path, b);
      if path[1..] != [] {
        PathExact(proof, at + |b.prefix|, false, b.child, path[1..]);
      }
    } else {
      VerifyHere(proof, at, root, hash, path);
    }
  }

  /** What is found in a tree for a key. */
  function Holds(t: Tree, key: Key): Option<Record> {
    if key in Contents(t) then Some(Contents(t)[key]) else None
  }

  /** A proof is accepted exactly if it is for the tree's range, the key is in the
      range, and the path is the way to the key; and then it says truly what the
      tree with that root hash holds for the key. */
  lemma ProofExact(proof: ReadProof)
    requires |proof.key| == NUM_BITS && WellFormed(proof.rootHash, [], true)
    ensures VerifyProof(proof) == Verified <==>
            && proof.rootHash.range == Some(proof.range) && proof.range.Valid() && InRange(proof.range, proof.key)
            && Truthful(proof, 0, proof.rootHash, proof.path)
    ensures VerifyProof(proof) == Verified ==> proof.leaf == Holds(proof.rootHash, proof.key)
  {
    assert proof.key[..0] == [];
    LookupAgrees(proof.rootHash, [], true, proof.key);
    if proof.path != [] { PathExact(proof, 0, true, proof.rootHash, proof.path); }
  }
}
