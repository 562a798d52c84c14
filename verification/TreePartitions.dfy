/** The partitions that are transferred are trees: splitting and merging trees splits and merges partitions. */
module TreePartitions {
  import opened Wrappers
  import opened OwnedRanges
  import opened Bits
  import opened MerkleTree
  import opened MerkleSplit
  import opened MerkleMerge
  import opened MerkleProofs
  import T = OwnershipTransfer

  predicate RecordAt(p: T.Partition, k: Key, x: Record) {
    BitValue(k) in p.records && p.records[BitValue(k)] == x
  }

  /** The tree has the range and the records of the partition. */
  ghost predicate Represents(t: Tree, p: T.Partition) {
    && Owned(t) && t.range == Some(p.range)
    && (forall k <- Contents(t) :: RecordAt(p, k, Contents(t)[k]))
    && (forall id <- p.records :: exists k <- Contents(t) :: BitValue(k) == id)
  }

  lemma HalfRepresented(t: Tree, p: T.Partition, h: Tree, range: OwnedRange)
    requires Represents(t, p) && Owned(h) && h.range == Some(range)
    requires forall k <- Contents(h) :: k in Contents(t) && Contents(h)[k] == Contents(t)[k]
    requires forall k <- Contents(t) | range.start <= BitValue(k) <= range.end :: k in Contents(h)
    ensures Represents(h, T.Part(p, range))
  {
    forall k | k in Contents(h) ensures RecordAt(T.Part(p, range), k, Contents(h)[k]) {
      assert RecordAt(p, k, Contents(t)[k]);
    }
    forall id | id in T.Part(p, range).records ensures exists k <- Contents(h) :: BitValue(k) == id {
      var k :| k in Contents(t) && BitValue(k) == id;
    }
  }

  /** The trees of a split are the two parts of the partition. */
  lemma SplitRepresents(t: Tree, p: T.Partition, key: Key, id: RecordId)
    requires Represents(t, p) && |key| == NUM_BITS && BitValue(key) == id && p.range.start < id <= p.range.end
    ensures var (l, r) := SplitTree(t, key, id);
            Represents(l, T.Part(p, OwnedRange(p.range.start, id - 1))) && Represents(r, T.Part(p, OwnedRange(id, p.range.end)))
  {
    var (l, r) := SplitTree(t, key, id);
    SplitTreeDivides(t, key, id);
    forall k | k in Contents(t) ensures Before(k, key) <==> BitValue(k) < id { OwnedKey(t, k); BeforeIsLess(k, key); }
    HalfRepresented(t, p, l, OwnedRange(p.range.start, id - 1));
    HalfRepresented(t, p, r, OwnedRange(id, p.range.end));
  }

  /** The tree of a merge is the merged partition, and there is one exactly if the partitions can be merged. */
  lemma MergeRepresents(l: Tree, p: T.Partition, r: Tree, q: T.Partition)
    requires Represents(l, p) && Represents(r, q)
    ensures MergeTrees(l, r).MergedTo? <==> T.Merged(p, q).Some?
    ensures T.Merged(p, q).Some? ==> Represents(MergeTrees(l, r).tree, T.Merged(p, q).value)
  {
    MergeTreesExact(l, r);
    if T.Merged(p, q).Some? { MergedRepresented(l, p, r, q, MergeTrees(l, r).tree, T.Merged(p, q).value); }
  }

  lemma MergedRepresented(l: Tree, p: T.Partition, r: Tree, q: T.Partition, t: Tree, m: T.Partition)
    requires Represents(l, p) && Represents(r, q) && Owned(t) && t.range == Some(m.range) && Contents(t) == Contents(l) + Contents(r)
    requires T.Merged(p, q) == Some(m)
    ensures Represents(t, m)
  {
    forall k | k in Contents(t) ensures RecordAt(m, k, Contents(t)[k]) {
      if k in Contents(r) {
        assert RecordAt(q, k, Contents(r)[k]);
      } else {
        assert RecordAt(p, k, Contents(l)[k]);
        NotInOther(l, r, q, k);
      }
    }
    forall id | id in m.records ensures exists k <- Contents(t) :: BitValue(k) == id {
      if id in q.records { var k :| k in Contents(r) && BitValue(k) == id; assert k in Contents(t); }
      else { var k :| k in Contents(l) && BitValue(k) == id; assert k in Contents(t); }
    }
  }

  lemma RecordsInRange(t: Tree, p: T.Partition)
    requires Represents(t, p)
    ensures forall id <- p.records :: p.range.start <= id <= p.range.end
  {
    forall id | id in p.records ensures p.range.start <= id <= p.range.end {
      var k :| k in Contents(t) && BitValue(k) == id;
      OwnedKey(t, k);
    }
  }

  lemma NotInOther(l: Tree, r: Tree, q: T.Partition, k: Key)
    requires Owned(l) && Represents(r, q) && k in Contents(l) && l.range.value.Join(r.range.value).Some?
    ensures BitValue(k) !in q.records
  {
    OwnedKey(l, k);
    RecordsInRange(r, q);
  }

  // ---- What a leader finds about proofs ----

  /** For a split at the key; `roots` are the root hashes that the leader's overlay knows. */
  function FoundSplit(roots: set<Tree>, key: Key, proof: Option<ReadProof>): T.SplitProof
    requires proof.Some? ==> |proof.value.key| == NUM_BITS
  {
    if proof.None? then T.NoProof
    else if proof.value.key != key then T.OtherKey
    else if proof.value.rootHash !in roots then T.StalePath
    else match VerifyProof(proof.value)
      case Verified => T.RightPath
      case Invalid => T.WrongPath
      case Panicked => T.BrokenPath
  }

  /** The proof is for a tree of the leader's and is the way to its key in that tree. */
  ghost predicate Proves(roots: set<Tree>, proof: ReadProof) {
    && proof.rootHash in roots && proof.rootHash.Node? && proof.rootHash.range == Some(proof.range)
    && proof.range.Valid() && InRange(proof.range, proof.key) && Truthful(proof, 0, proof.rootHash, proof.path)
  }

  lemma ProvesIsVerified(roots: set<Tree>, proof: ReadProof)
    requires |proof.key| == NUM_BITS && proof.rootHash in roots && WellFormed(proof.rootHash, [], true)
    ensures VerifyProof(proof) == Verified <==> Proves(roots, proof)
  {
    ProofExact(proof);
  }

  /** One half of the split tree stands for what goes, the other for what is kept. */
  ghost predicate Halves(t: Tree, key: Key, id: RecordId, keeping: T.Partition, going: T.Partition)
    requires t.Node? && t.range.Some? && key != [] && id > 0
  {
    var (l, r) := SplitTree(t, key, id);
    (Represents(l, going) && Represents(r, keeping)) || (Represents(r, going) && Represents(l, keeping))
  }

  lemma DivideRepresents(t: Tree, p: T.Partition, key: Key, range: OwnedRange)
    requires Represents(t, p) && range.Valid() && p.range.SplitAt(range).Some? && |key| == NUM_BITS && BitValue(key) == p.range.SplitAt(range).value
    ensures var id := p.range.SplitAt(range).value;
            id > 0 && T.Divide(p, range, id).Some? && Halves(t, key, id, T.Divide(p, range, id).value.0, T.Divide(p, range, id).value.1)
  {
    T.DivideIsExact(p, range);
    SplitRepresents(t, p, key, p.range.SplitAt(range).value);
  }

  /** How the answer to a request to give a part of a partition depends on the proof. */
  lemma SplitAnswers(n: T.GroupId, g: T.Leader, d: T.GroupId, range: OwnedRange, found: T.SplitProof)
    requires T.Ranged(g.Last()) && g.tree && n != d && range.Valid() && g.Last().transferring.None? && g.Last().partition.Some?
    requires g.Last().partition.value.range.SplitAt(range).Some? && !found.NoProof?
    ensures var p, (h, r) := g.Last().partition.value, T.HandleTransferOut(g, n, d, range, true, found);
            && (r == T.Done <==> found.RightPath?) && (r == T.MissingProof <==> found.OtherKey?)
            && (r == T.StaleProof <==> found.StalePath?) && (r == T.InvalidProof <==> found.WrongPath?)
            && (r == T.Done ==>
                  var id := p.range.SplitAt(range).value;
                  && id > 0 && T.Divide(p, range, id).Some? && T.Gives(h.Last())
                  && h.Last().partition == Some(T.Divide(p, range, id).value.0) && T.Given(h.Last()) == T.Divide(p, range, id).value.1)
  {
    T.DivideIsExact(g.Last().partition.value, range);
  }

  /** A leader with the tree of its partition, asked to give a part of it with a proof for the split point: the
      answer is that of the proof, and if it is done, the split tree stands for what goes and what is kept. */
  lemma SplitAsProved(n: T.GroupId, g: T.Leader, d: T.GroupId, range: OwnedRange, t: Tree, roots: set<Tree>, key: Key, proof: ReadProof)
    requires T.LeaderOk(n, g) && g.tree && n != d && range.Valid() && g.Last().transferring.None?
    requires Represents(t, g.Last().partition.value) && (forall r <- roots :: WellFormed(r, [], true))
    requires g.Last().partition.value.range.SplitAt(range).Some? && |key| == |proof.key| == NUM_BITS
    requires BitValue(key) == g.Last().partition.value.range.SplitAt(range).value
    ensures T.Ranged(g.Last())
    ensures var (h, r) := T.HandleTransferOut(g, n, d, range, true, FoundSplit(roots, key, Some(proof)));
            && (r == T.Done <==> proof.key == key && Proves(roots, proof))
            && (r == T.MissingProof <==> proof.key != key)
            && (r == T.StaleProof <==> proof.key == key && proof.rootHash !in roots)
            && (r == T.InvalidProof <==> proof.key == key && proof.rootHash in roots && VerifyProof(proof) == Invalid)
            && (r == T.Done ==> h.Last().partition.Some? && T.Gives(h.Last())
                                && Halves(t, key, BitValue(key), h.Last().partition.value, T.Given(h.Last())))
  {
    T.LastOk(n, g);
    hide Represents, Halves, Proves, VerifyProof, T.LeaderOk, T.HandleTransferOut;
    SplitAnswers(n, g, d, range, FoundSplit(roots, key, Some(proof)));
    DivideRepresents(t, g.Last().partition.value, key, range);
    if proof.rootHash in roots { ProvesIsVerified(roots, proof); }
  }

  /** For a merge of the leader's tree with the one it has been sent. */
  function FoundMerge(mine: Tree, roots: set<Tree>, other: Tree, proofs: Option<(ReadProof, ReadProof)>): T.MergeProofs
    requires mine.Node? && mine.range.Some? && mine.range.value.Valid() && other.Node? && other.range.Some? && other.range.value.Valid()
    requires proofs.Some? ==> |proofs.value.0.key| == |proofs.value.1.key| == NUM_BITS
  {
    if proofs.None? then T.NoProofs
    else
      var (owned, sent) := proofs.value;
      if Some(sent.range) != other.range || sent.rootHash != other then T.OtherTree
      else if owned.rootHash !in roots then T.StalePaths
      else match VerifyProof(owned)
        case Panicked => T.BrokenPaths
        case Invalid => T.WrongPaths
        case Verified =>
          match VerifyProof(sent)
          case Panicked => T.BrokenPaths
          case Invalid => T.WrongPaths
          case Verified => if MergeWith(mine, owned.key, other, sent.key).Panics? then T.BrokenPaths else T.RightPaths
  }

  /** Proofs are found to be right exactly if they are the ways to their keys and the ways are clear; and then the
      merged tree stands for the merged partition. */
  lemma MergeAsProved(mine: Tree, p: T.Partition, roots: set<Tree>, other: Tree, q: T.Partition, owned: ReadProof, sent: ReadProof)
    requires Represents(mine, p) && Represents(other, q) && T.Merged(p, q).Some? && (forall r <- roots :: WellFormed(r, [], true))
    requires |owned.key| == |sent.key| == NUM_BITS
    ensures FoundMerge(mine, roots, other, Some((owned, sent))) == T.RightPaths <==>
            Proves(roots, owned) && Proves({other}, sent) && ClearWays(mine, owned.key, other, sent.key)
    ensures FoundMerge(mine, roots, other, Some((owned, sent))) == T.RightPaths ==>
              && MergeWith(mine, owned.key, other, sent.key).MergedTo?
              && Represents(MergeWith(mine, owned.key, other, sent.key).tree, T.Merged(p, q).value)
  {
    assert Owned(mine) && Owned(other) && mine.range == Some(p.range) && other.range == Some(q.range);
    hide Represents, ClearWays, VerifyProof, MergeWith, MergeTrees;
    if owned.rootHash in roots { ProvesIsVerified(roots, owned); }
    if sent.rootHash == other { ProvesIsVerified({other}, sent); }
    MergeWithExact(mine, owned.key, other, sent.key);
    MergeRepresents(mine, p, other, q);
  }
}
