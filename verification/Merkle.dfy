/**
 The Merkle commitment over file identities. The digest is any function of bytes with the
 algorithm's output length; nothing is assumed about collisions.
 */
module Merkle {
  import opened Bytes
  import opened Paths

  datatype Algorithm = Crc32 | XxHash | Sha256

  function OutputSize(a: Algorithm): nat { match a case Crc32 => 4 case XxHash => 8 case Sha256 => 32 }

  function AlgorithmTag(a: Algorithm): byte { match a case Crc32 => 0 case XxHash => 1 case Sha256 => 2 }

  function NamespaceTag(n: Namespace): byte {
    match n
    case Empty => 0 case Current => 1 case Relative => 2 case Rooted => 3
    case Unc => 4 case DriveRelative => 5 case DriveRooted => 6
  }

  datatype Hash = Hash(algorithm: Algorithm, bytes: Text)
  datatype File = File(path: Text, hash: Hash, size: nat)

  /** What the commitment binds of one file. */
  datatype Identity = Identity(path: NormalizedPath, size: nat, hash: Hash)

  ghost predicate Digests(h: Digest, a: Algorithm) { forall x: Text :: |h(x)| == OutputSize(a) }

  // ---------------------------------------------------------------- encodings

  const VERSION: byte := 2
  /** "arclain-merkle-leaf" and "arclain-merkle-node" */
  const LEAF_DOMAIN: Text := [97, 114, 99, 108, 97, 105, 110, 45, 109, 101, 114, 107, 108, 101, 45, 108, 101, 97, 102]
  const NODE_DOMAIN: Text := [97, 114, 99, 108, 97, 105, 110, 45, 109, 101, 114, 107, 108, 101, 45, 110, 111, 100, 101]

  function Prefixed(field: Text): Text { LittleEndian(|field|, 8) + field }

  function LeafInput(id: Identity, a: Algorithm): Text {
    Prefixed(LEAF_DOMAIN) + ([VERSION, AlgorithmTag(a), NamespaceTag(id.path.namespace)] + (Prefixed(id.path.value)
    + (LittleEndian(id.size, 8) + ([AlgorithmTag(id.hash.algorithm)] + Prefixed(id.hash.bytes)))))
  }

  function NodeInput(l: Hash, r: Hash, a: Algorithm): Text {
    Prefixed(NODE_DOMAIN) + ([VERSION, AlgorithmTag(a), AlgorithmTag(l.algorithm)] + (Prefixed(l.bytes)
    + ([AlgorithmTag(r.algorithm)] + Prefixed(r.bytes))))
  }

  /** Fits the 64-bit lengths and sizes of the encoding, as every machine value does. */
  predicate FitsHash(x: Hash) { |x.bytes| < TWO_64 }

  predicate FitsIdentity(id: Identity) {
    |id.path.value| < TWO_64 && id.size < TWO_64 && FitsHash(id.hash)
  }

  lemma {:induction false} PrefixedSplit(f: Text, r: Text)
    ensures Prefixed(f) + r == LittleEndian(|f|, 8) + (f + r)
  {
  }

  lemma {:induction false} PrefixedInjective(f: Text, g: Text, r: Text, s: Text)
    requires |f| < TWO_64 && |g| < TWO_64 && Prefixed(f) + r == Prefixed(g) + s
    ensures f == g && r == s
  {
    Widths();
    PrefixedSplit(f, r);
    PrefixedSplit(g, s);
    SplitEqual(LittleEndian(|f|, 8), f + r, LittleEndian(|g|, 8), g + s);
    LittleEndianInjective(|f|, |g|, 8);
    SplitEqual(f, r, g, s);
  }

  lemma {:induction false} PrefixedWholeInjective(f: Text, g: Text)
    requires |f| < TWO_64 && |g| < TWO_64 && Prefixed(f) == Prefixed(g)
    ensures f == g
  {
    assert Prefixed(f) + [] == Prefixed(f) && Prefixed(g) + [] == Prefixed(g);
    PrefixedInjective(f, g, [], []);
  }

  lemma {:induction false} LeafInputInjective(x: Identity, y: Identity, a: Algorithm)
    requires FitsIdentity(x) && FitsIdentity(y) && LeafInput(x, a) == LeafInput(y, a)
    ensures x == y
  {
    Widths();
    var hx := [AlgorithmTag(x.hash.algorithm)] + Prefixed(x.hash.bytes);
    var hy := [AlgorithmTag(y.hash.algorithm)] + Prefixed(y.hash.bytes);
    var sx, sy := LittleEndian(x.size, 8) + hx, LittleEndian(y.size, 8) + hy;
    var vx, vy := Prefixed(x.path.value) + sx, Prefixed(y.path.value) + sy;
    var tx: Text := [VERSION, AlgorithmTag(a), NamespaceTag(x.path.namespace)];
    var ty: Text := [VERSION, AlgorithmTag(a), NamespaceTag(y.path.namespace)];
    PrefixedInjective(LEAF_DOMAIN, LEAF_DOMAIN, tx + vx, ty + vy);
    SplitEqual(tx, vx, ty, vy);
    assert tx[2] == ty[2];
    PrefixedInjective(x.path.value, y.path.value, sx, sy);
    SplitEqual(LittleEndian(x.size, 8), hx, LittleEndian(y.size, 8), hy);
    LittleEndianInjective(x.size, y.size, 8);
    SplitEqual([AlgorithmTag(x.hash.algorithm)], Prefixed(x.hash.bytes), [AlgorithmTag(y.hash.algorithm)], Prefixed(y.hash.bytes));
    assert [AlgorithmTag(x.hash.algorithm)][0] == [AlgorithmTag(y.hash.algorithm)][0];
    PrefixedWholeInjective(x.hash.bytes, y.hash.bytes);
  }

  lemma {:induction false} NodeInputInjective(l: Hash, r: Hash, l': Hash, r': Hash, a: Algorithm)
    requires FitsHash(l) && FitsHash(r) && FitsHash(l') && FitsHash(r')
    requires NodeInput(l, r, a) == NodeInput(l', r', a)
    ensures l == l' && r == r'
  {
    var t: Text, t': Text := [VERSION, AlgorithmTag(a), AlgorithmTag(l.algorithm)], [VERSION, AlgorithmTag(a), AlgorithmTag(l'.algorithm)];
    var rr, rr' := [AlgorithmTag(r.algorithm)] + Prefixed(r.bytes), [AlgorithmTag(r'.algorithm)] + Prefixed(r'.bytes);
    var b, b' := Prefixed(l.bytes) + rr, Prefixed(l'.bytes) + rr';
    PrefixedInjective(NODE_DOMAIN, NODE_DOMAIN, t + b, t' + b');
    SplitEqual(t, b, t', b');
    assert t[2] == t'[2];
    PrefixedInjective(l.bytes, l'.bytes, rr, rr');
    SplitEqual([AlgorithmTag(r.algorithm)], Prefixed(r.bytes), [AlgorithmTag(r'.algorithm)], Prefixed(r'.bytes));
    assert [AlgorithmTag(r.algorithm)][0] == [AlgorithmTag(r'.algorithm)][0];
    PrefixedWholeInjective(r.bytes, r'.bytes);
  }

  /** A leaf is never mistaken for a node: the two domains differ within equal lengths. */
  lemma {:induction false} LeafIsNotNode(id: Identity, l: Hash, r: Hash, a: Algorithm, b: Algorithm)
    ensures LeafInput(id, a) != NodeInput(l, r, b)
  {
    var x, y := LeafInput(id, a), NodeInput(l, r, b);
    assert x[8 + 15] == LEAF_DOMAIN[15] && y[8 + 15] == NODE_DOMAIN[15];
  }

  /** The encodings written out, field by field, as the format has them. */
  lemma {:induction false} LeafLayout(id: Identity, a: Algorithm)
    ensures LeafInput(id, a) ==
      LittleEndian(19, 8) + Ascii("arclain-merkle-leaf") + [2, AlgorithmTag(a), NamespaceTag(id.path.namespace)]
      + LittleEndian(|id.path.value|, 8) + id.path.value + LittleEndian(id.size, 8)
      + [AlgorithmTag(id.hash.algorithm)] + LittleEndian(|id.hash.bytes|, 8) + id.hash.bytes
  {
    assert LEAF_DOMAIN == Ascii("arclain-merkle-leaf");
  }

  lemma {:induction false} NodeLayout(l: Hash, r: Hash, a: Algorithm)
    ensures NodeInput(l, r, a) ==
      LittleEndian(19, 8) + Ascii("arclain-merkle-node") + [2, AlgorithmTag(a)]
      + [AlgorithmTag(l.algorithm)] + LittleEndian(|l.bytes|, 8) + l.bytes
      + [AlgorithmTag(r.algorithm)] + LittleEndian(|r.bytes|, 8) + r.bytes
  {
    assert NODE_DOMAIN == Ascii("arclain-merkle-node");
  }

  lemma {:induction false} Tags()
    ensures AlgorithmTag(Crc32) == 0 && AlgorithmTag(XxHash) == 1 && AlgorithmTag(Sha256) == 2
    ensures OutputSize(Crc32) == 4 && OutputSize(XxHash) == 8 && OutputSize(Sha256) == 32
    ensures NamespaceTag(Empty) == 0 && NamespaceTag(Current) == 1 && NamespaceTag(Relative) == 2
    ensures NamespaceTag(Rooted) == 3 && NamespaceTag(Unc) == 4
    ensures NamespaceTag(DriveRelative) == 5 && NamespaceTag(DriveRooted) == 6
  {
  }

  // ---------------------------------------------------------------- levels

  function Combine(h: Digest, a: Algorithm, l: Hash, r: Hash): Hash { Hash(a, h(NodeInput(l, r, a))) }

  function LeafHash(h: Digest, a: Algorithm, id: Identity): Hash { Hash(a, h(LeafInput(id, a))) }

  function Half(n: nat): nat { (n + 1) / 2 }

  /** The right child of pair `i`: its odd neighbour, or the last node again when there is none. */
  function Right(level: seq<Hash>, i: nat): Hash
    requires 2 * i < |level|
  {
    if 2 * i + 1 < |level| then level[2 * i + 1] else level[2 * i]
  }

  function PairInput(a: Algorithm, level: seq<Hash>, i: nat): Text
    requires 2 * i < |level|
  {
    NodeInput(level[2 * i], Right(level, i), a)
  }

  function NextLevel(h: Digest, a: Algorithm, level: seq<Hash>): (next: seq<Hash>)
    ensures |next| == Half(|level|)
    ensures forall i :: 0 <= i < |next| ==> next[i] == Hash(a, h(PairInput(a, level, i)))
  {
    seq(Half(|level|), i requires 0 <= i < Half(|level|) => Combine(h, a, level[2 * i], Right(level, i)))
  }

  function Levels(h: Digest, a: Algorithm, level: seq<Hash>): (ls: seq<seq<Hash>>)
    ensures |ls| > 0 && ls[0] == level
    decreases |level|
  {
    if |level| <= 1 then [level] else [level] + Levels(h, a, NextLevel(h, a, level))
  }

  function RootOf(h: Digest, a: Algorithm, level: seq<Hash>): Hash
    requires |level| > 0
    decreases |level|
  {
    if |level| == 1 then level[0] else RootOf(h, a, NextLevel(h, a, level))
  }

  lemma {:induction false} LastLevelIsRoot(h: Digest, a: Algorithm, level: seq<Hash>)
    requires |level| > 0
    ensures
      var ls := Levels(h, a, level);
      ls[|ls| - 1] == [RootOf(h, a, level)]
    decreases |level|
  {
    if |level| > 1 { LastLevelIsRoot(h, a, NextLevel(h, a, level)); }
  }

  function Pow2(n: nat): (p: nat)
    ensures p > 0
  {
    if n == 0 then 1 else 2 * Pow2(n - 1)
  }

  /** n halved l times, rounding up: ceil(n / 2^l). */
  function Halved(n: nat, l: nat): nat { if l == 0 then n else Halved(Half(n), l - 1) }

  lemma {:induction false} HalvedIsCeil(n: nat, l: nat)
    requires n > 0
    ensures Halved(n, l) > 0 && (Halved(n, l) - 1) * Pow2(l) < n <= Halved(n, l) * Pow2(l)
  {
    if l > 0 {
      HalvedIsCeil(Half(n), l - 1);
      HalveAgain(n, Halved(n, l), Pow2(l - 1));
    }
  }

  /** Level `l` has ceil(n / 2^l) nodes. */
  lemma {:induction false} LevelSizes(h: Digest, a: Algorithm, level: seq<Hash>, l: nat)
    requires |level| > 0 && l < |Levels(h, a, level)|
    ensures |Levels(h, a, level)[l]| == Halved(|level|, l)
    decreases |level|
  {
    if l > 0 { LevelSizes(h, a, NextLevel(h, a, level), l - 1); }
  }

  lemma {:induction false} HalveAgain(n: nat, m: nat, p: nat)
    requires m > 0 && (m - 1) * p < Half(n) <= m * p
    ensures (m - 1) * (2 * p) < n <= m * (2 * p)
  {
    assert (m - 1) * (2 * p) == 2 * ((m - 1) * p) && m * (2 * p) == 2 * (m * p);
  }

  /** The least d with 2^d >= n. */
  function CeilLog2(n: nat): (d: nat)
    requires n > 0
    ensures n <= Pow2(d) && (d > 0 ==> Pow2(d - 1) < n)
  {
    if n == 1 then 0 else 1 + CeilLog2(Half(n))
  }

  /** The depth is 1 + ceil(log2 n), and the folding loop runs that often less one. */
  lemma {:induction false} Depth(h: Digest, a: Algorithm, level: seq<Hash>)
    requires |level| > 0
    ensures |Levels(h, a, level)| == 1 + CeilLog2(|level|)
    decreases |level|
  {
    if |level| > 1 { Depth(h, a, NextLevel(h, a, level)); }
  }

  // ---------------------------------------------------------------- proofs

  function Sibling(level: seq<Hash>, i: nat): Hash
    requires i < |level|
  {
    if i % 2 == 1 then level[i - 1] else if i + 1 < |level| then level[i + 1] else level[i]
  }

  function ProofFrom(h: Digest, a: Algorithm, level: seq<Hash>, i: nat): seq<Hash>
    requires i < |level|
    decreases |level|
  {
    if |level| <= 1 then [] else [Sibling(level, i)] + ProofFrom(h, a, NextLevel(h, a, level), i / 2)
  }

  /** Folding a proof from a leaf, by the parity of the index at each level. */
  function Fold(h: Digest, a: Algorithm, leaf: Hash, i: nat, proof: seq<Hash>): Hash
    decreases |proof|
  {
    if proof == [] then leaf else
    var parent := if i % 2 == 0 then Combine(h, a, leaf, proof[0]) else Combine(h, a, proof[0], leaf);
    Fold(h, a, parent, i / 2, proof[1..])
  }

  /** The parent of node `i`, whatever its parity. */
  lemma {:induction false} ParentOf(h: Digest, a: Algorithm, level: seq<Hash>, i: nat)
    requires i < |level| && |level| > 1
    ensures
      var l, r := if i % 2 == 0 then level[i] else Sibling(level, i), if i % 2 == 0 then Sibling(level, i) else level[i];
      && i / 2 < Half(|level|)
      && l == level[2 * (i / 2)] && r == Right(level, i / 2)
      && NextLevel(h, a, level)[i / 2] == Combine(h, a, l, r)
  {
    assert i == 2 * (i / 2) + i % 2;
  }

  /** Every proof reconstructs the root. */
  lemma {:induction false} ProofReconstructsRoot(h: Digest, a: Algorithm, level: seq<Hash>, i: nat)
    requires i < |level|
    ensures Fold(h, a, level[i], i, ProofFrom(h, a, level, i)) == RootOf(h, a, level)
    decreases |level|
  {
    if |level| > 1 {
      ParentOf(h, a, level, i);
      var next, proof := NextLevel(h, a, level), ProofFrom(h, a, level, i);
      ProofReconstructsRoot(h, a, next, i / 2);
      assert proof[1..] == ProofFrom(h, a, next, i / 2) && proof[0] == Sibling(level, i);
    }
  }

  lemma {:induction false} ProofLength(h: Digest, a: Algorithm, level: seq<Hash>, i: nat)
    requires i < |level|
    ensures |ProofFrom(h, a, level, i)| == |Levels(h, a, level)| - 1
    decreases |level|
  {
    if |level| > 1 { ProofLength(h, a, NextLevel(h, a, level), i / 2); }
  }

  // ---------------------------------------------------------------- binding

  predicate AllFit(level: seq<Hash>) { forall i :: 0 <= i < |level| ==> FitsHash(level[i]) }

  /** The strings hashed above a level. */
  ghost function HashedAbove(h: Digest, a: Algorithm, level: seq<Hash>): set<Text>
    decreases |level|
  {
    if |level| <= 1 then {} else
    (set i | 0 <= i < Half(|level|) :: PairInput(a, level, i)) + HashedAbove(h, a, NextLevel(h, a, level))
  }

  lemma {:induction false} NextLevelFits(h: Digest, a: Algorithm, level: seq<Hash>)
    requires Digests(h, a)
    ensures AllFit(NextLevel(h, a, level))
  {
  }

  /** Different levels of one length fold to equal levels only through a collision. */
  lemma {:induction false} LevelBinding(h: Digest, a: Algorithm, u: seq<Hash>, v: seq<Hash>) returns (x: Text, y: Text)
    requires |u| == |v| > 1 && AllFit(u) && AllFit(v)
    requires u != v && NextLevel(h, a, u) == NextLevel(h, a, v)
    ensures Collision(h, x, y) && x in HashedAbove(h, a, u) && y in HashedAbove(h, a, v)
  {
    var k :| 0 <= k < |u| && u[k] != v[k];
    var i := k / 2;
    x, y := PairInput(a, u, i), PairInput(a, v, i);
    assert NextLevel(h, a, u)[i] == NextLevel(h, a, v)[i];
    if x == y { NodeInputInjective(u[2 * i], Right(u, i), v[2 * i], Right(v, i), a); }
    assert 0 <= i < Half(|u|);
  }

  /** Equal roots over levels of one length: the levels are equal, or here is a collision. */
  lemma {:induction false} RootBinding(h: Digest, a: Algorithm, u: seq<Hash>, v: seq<Hash>) returns (x: Text, y: Text)
    requires Digests(h, a) && |u| == |v| > 0 && AllFit(u) && AllFit(v)
    requires RootOf(h, a, u) == RootOf(h, a, v)
    ensures u == v || (Collision(h, x, y) && x in HashedAbove(h, a, u) && y in HashedAbove(h, a, v))
    decreases |u|
  {
    x, y := [], [];
    if |u| > 1 {
      var nu, nv := NextLevel(h, a, u), NextLevel(h, a, v);
      NextLevelFits(h, a, u);
      NextLevelFits(h, a, v);
      x, y := RootBinding(h, a, nu, nv);
      if nu == nv && u != v { x, y := LevelBinding(h, a, u, v); }
    }
  }

  /** The strings hashed while folding a proof from a leaf. */
  ghost function HashedByFold(h: Digest, a: Algorithm, leaf: Hash, i: nat, proof: seq<Hash>): set<Text>
    decreases |proof|
  {
    if proof == [] then {} else
    var l, r := if i % 2 == 0 then leaf else proof[0], if i % 2 == 0 then proof[0] else leaf;
    {NodeInput(l, r, a)} + HashedByFold(h, a, Combine(h, a, l, r), i / 2, proof[1..])
  }

  /** A proof of the right length that folds another leaf to the root exhibits a collision, between a
      string hashed while folding it and a string hashed to build the tree. */
  lemma {:induction false} ProofBinding(h: Digest, a: Algorithm, level: seq<Hash>, i: nat, leaf: Hash, proof: seq<Hash>)
    returns (x: Text, y: Text)
    requires Digests(h, a) && i < |level| && AllFit(level) && FitsHash(leaf) && AllFit(proof)
    requires |proof| == |Levels(h, a, level)| - 1
    requires Fold(h, a, leaf, i, proof) == RootOf(h, a, level)
    ensures leaf == level[i] ||
            (Collision(h, x, y) && x in HashedByFold(h, a, leaf, i, proof) && y in HashedAbove(h, a, level))
    decreases |level|
  {
    x, y := [], [];
    if |level| > 1 {
      var next := NextLevel(h, a, level);
      NextLevelFits(h, a, level);
      var l, r := if i % 2 == 0 then leaf else proof[0], if i % 2 == 0 then proof[0] else leaf;
      x, y := ProofBinding(h, a, next, i / 2, Combine(h, a, l, r), proof[1..]);
      if Combine(h, a, l, r) == next[i / 2] && leaf != level[i] {
        ParentOf(h, a, level, i);
        x, y := NodeInput(l, r, a), PairInput(a, level, i / 2);
        assert 0 <= i / 2 < Half(|level|);
        if x == y { NodeInputInjective(l, r, level[2 * (i / 2)], Right(level, i / 2), a); }
      }
    }
  }

  /** Equal length is needed: an odd level and the same level with its last node repeated have one root. */
  lemma {:induction false} RepeatedLastKeepsRoot(h: Digest, a: Algorithm, level: seq<Hash>)
    requires |level| > 1 && |level| % 2 == 1
    ensures RootOf(h, a, level + [level[|level| - 1]]) == RootOf(h, a, level)
  {
    var longer := level + [level[|level| - 1]];
    assert forall i :: 0 <= i < Half(|level|) ==> PairInput(a, longer, i) == PairInput(a, level, i);
    assert NextLevel(h, a, longer) == NextLevel(h, a, level);
  }
}
