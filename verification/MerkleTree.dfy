/** Building a tree from file hashes, its proofs, and its root-only serialisation. */
module MerkleTree {
  import opened Common
  import opened Bytes
  import opened Paths
  import opened Merkle

  datatype Tree = Tree(
    root: Hash, nodes: seq<seq<Hash>>, contentHashes: seq<Hash>, filePaths: seq<Text>,
    fileCount: nat, algorithm: Algorithm)

  function IdentityOf(f: File): Identity { Identity(Normalize(f.path), f.size, f.hash) }

  function Map<A, B>(f: A -> B, s: seq<A>): (r: seq<B>)
    ensures |r| == |s|
    ensures forall i :: 0 <= i < |s| ==> r[i] == f(s[i])
  {
    seq(|s|, i requires 0 <= i < |s| => f(s[i]))
  }

  function Identities(files: seq<File>): seq<Identity> { Map(IdentityOf, files) }

  // ---------------------------------------------------------------- the comparator

  function Cmp(x: int, y: int): int { if x < y then -1 else if x > y then 1 else 0 }

  function Lex(x: Text, y: Text): int {
    if x == [] then (if y == [] then 0 else -1)
    else if y == [] then 1
    else if x[0] != y[0] then Cmp(x[0], y[0])
    else Lex(x[1..], y[1..])
  }

  function Then(c: int, d: int): int { if c != 0 then c else d }

  /** Normalised value, then namespace, size, content algorithm and content hash. */
  function Compare(x: Identity, y: Identity): int {
    Then(Lex(x.path.value, y.path.value),
    Then(Cmp(NamespaceTag(x.path.namespace), NamespaceTag(y.path.namespace)),
    Then(Cmp(x.size, y.size),
    Then(Cmp(AlgorithmTag(x.hash.algorithm), AlgorithmTag(y.hash.algorithm)),
         Lex(x.hash.bytes, y.hash.bytes)))))
  }

  lemma {:induction false} LexOrder(x: Text, y: Text)
    ensures Lex(x, y) == -Lex(y, x)
    ensures Lex(x, y) == 0 <==> x == y
  {
    if x != [] && y != [] && x[0] == y[0] {
      LexOrder(x[1..], y[1..]);
      assert x == [x[0]] + x[1..] && y == [y[0]] + y[1..];
    }
  }

  lemma {:induction false} LexTransitive(x: Text, y: Text, z: Text)
    requires Lex(x, y) <= 0 && Lex(y, z) <= 0
    ensures Lex(x, z) <= 0 && (Lex(x, z) == 0 ==> Lex(x, y) == 0 && Lex(y, z) == 0)
  {
    if x != [] && y != [] && z != [] && x[0] == y[0] == z[0] {
      LexTransitive(x[1..], y[1..], z[1..]);
    }
  }

  /** A tie means the same identity: every field that reaches the tree is compared. */
  lemma {:induction false} CompareOrder(x: Identity, y: Identity)
    ensures Compare(x, y) == -Compare(y, x)
    ensures Compare(x, y) == 0 <==> x == y
  {
    LexOrder(x.path.value, y.path.value);
    LexOrder(x.hash.bytes, y.hash.bytes);
  }

  /** Lexicographic order, by the first place where two texts differ. */
  ghost predicate LexLess(x: Text, y: Text) {
    exists k: nat :: LexLessAt(x, y, k)
  }

  predicate LexLessAt(x: Text, y: Text, k: nat) {
    k <= |x| && k < |y| && x[..k] == y[..k] && (k == |x| || x[k] < y[k])
  }

  lemma {:induction false} PrefixHead(x: Text, y: Text, k: nat)
    requires 0 < k <= |x| && k <= |y| && x[..k] == y[..k]
    ensures x[0] == y[0]
  {
    assert x[..k][0] == y[..k][0];
  }

  lemma {:induction false} LexIs(x: Text, y: Text)
    ensures Lex(x, y) < 0 <==> LexLess(x, y)
    decreases |x|
  {
    if x == [] || y == [] || x[0] != y[0] {
      if LexLess(x, y) {
        var k: nat :| LexLessAt(x, y, k);
        if k > 0 { PrefixHead(x, y, k); }
      } else {
        assert !LexLessAt(x, y, 0);
      }
    } else {
      var x', y' := x[1..], y[1..];
      LexIs(x', y');
      if LexLess(x', y') {
        var k: nat :| LexLessAt(x', y', k);
        assert x[..k + 1] == [x[0]] + x'[..k] && y[..k + 1] == [y[0]] + y'[..k];
        assert LexLessAt(x, y, k + 1);
      }
      if LexLess(x, y) {
        var k: nat :| LexLessAt(x, y, k);
        assert k > 0;
        assert x'[..k - 1] == x[..k][1..] && y'[..k - 1] == y[..k][1..];
        assert LexLessAt(x', y', k - 1);
      }
    }
  }

  /** Tree order: by normalised value, then namespace in the order of their declaration, then size, then
      the algorithm and the bytes of the content hash. */
  lemma {:induction false} CompareIs(x: Identity, y: Identity)
    ensures
      var vx, vy, nx, ny := x.path.value, y.path.value, NamespaceTag(x.path.namespace), NamespaceTag(y.path.namespace);
      var ax, ay := AlgorithmTag(x.hash.algorithm), AlgorithmTag(y.hash.algorithm);
      Compare(x, y) < 0 <==>
        || LexLess(vx, vy)
        || (vx == vy && nx < ny)
        || (vx == vy && nx == ny && x.size < y.size)
        || (vx == vy && nx == ny && x.size == y.size && ax < ay)
        || (vx == vy && nx == ny && x.size == y.size && ax == ay && LexLess(x.hash.bytes, y.hash.bytes))
  {
    LexIs(x.path.value, y.path.value);
    LexIs(x.hash.bytes, y.hash.bytes);
    LexOrder(x.path.value, y.path.value);
  }

  lemma {:induction false} CompareTransitive(x: Identity, y: Identity, z: Identity)
    requires Compare(x, y) <= 0 && Compare(y, z) <= 0
    ensures Compare(x, z) <= 0
  {
    if Lex(x.path.value, y.path.value) <= 0 && Lex(y.path.value, z.path.value) <= 0 {
      LexTransitive(x.path.value, y.path.value, z.path.value);
    }
    if Lex(x.hash.bytes, y.hash.bytes) <= 0 && Lex(y.hash.bytes, z.hash.bytes) <= 0 {
      LexTransitive(x.hash.bytes, y.hash.bytes, z.hash.bytes);
    }
  }

  // ---------------------------------------------------------------- sorting

  ghost predicate Sorted(ids: seq<Identity>) {
    forall i, j :: 0 <= i < j < |ids| ==> Compare(ids[i], ids[j]) <= 0
  }

  function Insert(x: Identity, ids: seq<Identity>): seq<Identity> {
    if ids == [] || Compare(x, ids[0]) <= 0 then [x] + ids else [ids[0]] + Insert(x, ids[1..])
  }

  function Sort(ids: seq<Identity>): seq<Identity> {
    if ids == [] then [] else Insert(ids[0], Sort(ids[1..]))
  }

  lemma {:induction false} InsertKeeps(x: Identity, ids: seq<Identity>)
    ensures multiset(Insert(x, ids)) == multiset(ids) + multiset{x}
  {
    if ids != [] && Compare(x, ids[0]) > 0 {
      InsertKeeps(x, ids[1..]);
      assert ids == [ids[0]] + ids[1..];
    }
  }

  lemma {:induction false} InsertSorts(x: Identity, ids: seq<Identity>)
    requires Sorted(ids)
    ensures Sorted(Insert(x, ids))
  {
    if ids == [] {
    } else if Compare(x, ids[0]) <= 0 {
      forall j | 0 <= j < |ids| ensures Compare(x, ids[j]) <= 0 {
        if j > 0 { CompareTransitive(x, ids[0], ids[j]); }
      }
    } else {
      CompareOrder(x, ids[0]);
      InsertSorts(x, ids[1..]);
      InsertKeeps(x, ids[1..]);
      var out := Insert(x, ids[1..]);
      forall j | 0 <= j < |out| ensures Compare(ids[0], out[j]) <= 0 {
        assert out[j] in multiset(out);
        if out[j] != x { assert out[j] in ids[1..]; }
      }
    }
  }

  lemma {:induction false} SortSorts(ids: seq<Identity>)
    ensures Sorted(Sort(ids)) && multiset(Sort(ids)) == multiset(ids)
  {
    if ids != [] {
      var rest := Sort(ids[1..]);
      SortSorts(ids[1..]);
      assert Sorted(Insert(ids[0], rest)) by { InsertSorts(ids[0], rest); }
      assert multiset(Insert(ids[0], rest)) == multiset(rest) + multiset{ids[0]} by { InsertKeeps(ids[0], rest); }
      assert multiset(ids) == multiset(ids[1..]) + multiset{ids[0]} by { assert ids == [ids[0]] + ids[1..]; }
    }
  }

  lemma {:induction false} SortedHead(u: seq<Identity>, x: Identity)
    requires Sorted(u) && x in u
    ensures Compare(u[0], x) <= 0
  {
    CompareOrder(x, x);
  }

  lemma {:induction false} MultisetTail(u: seq<Identity>)
    requires u != []
    ensures multiset(u[1..]) == multiset(u) - multiset{u[0]}
  {
    assert u == [u[0]] + u[1..];
  }

  lemma {:induction false} SortedHeadsAgree(u: seq<Identity>, v: seq<Identity>)
    requires Sorted(u) && Sorted(v) && multiset(u) == multiset(v) && u != [] && v != []
    ensures u[0] == v[0]
  {
    assert u[0] in multiset(u) && v[0] in multiset(v);
    assert u[0] in v && v[0] in u;
    SortedHead(v, u[0]);
    SortedHead(u, v[0]);
    CompareOrder(u[0], v[0]);
  }

  lemma {:induction false} SortedTail(u: seq<Identity>)
    requires Sorted(u) && u != []
    ensures Sorted(u[1..])
  {
  }

  /** There is one sorted order of given identities: any sort that respects the comparator finds it. */
  lemma {:induction false} SortedIsUnique(u: seq<Identity>, v: seq<Identity>)
    requires Sorted(u) && Sorted(v) && multiset(u) == multiset(v)
    ensures u == v
  {
    assert |u| == |multiset(u)| == |v|;
    if u != [] {
      SortedHeadsAgree(u, v);
      SortedTail(u);
      SortedTail(v);
      MultisetTail(u);
      MultisetTail(v);
      SortedIsUnique(u[1..], v[1..]);
      assert u == [u[0]] + u[1..] && v == [v[0]] + v[1..];
    }
  }

  // ---------------------------------------------------------------- the tree

  function Leaves(h: Digest, a: Algorithm, ids: seq<Identity>): (level: seq<Hash>)
    ensures |level| == |ids|
    ensures forall i :: 0 <= i < |ids| ==> level[i] == LeafHash(h, a, ids[i])
  {
    seq(|ids|, i requires 0 <= i < |ids| => LeafHash(h, a, ids[i]))
  }

  function Hashes(ids: seq<Identity>): seq<Hash> { seq(|ids|, i requires 0 <= i < |ids| => ids[i].hash) }

  function Values(ids: seq<Identity>): seq<Text> { seq(|ids|, i requires 0 <= i < |ids| => ids[i].path.value) }

  function EmptyTree(a: Algorithm): Tree { Tree(Hash(a, []), [], [], [], 0, a) }

  /** The tree of identities in tree order. */
  function TreeOf(h: Digest, a: Algorithm, ids: seq<Identity>): Tree {
    if ids == [] then EmptyTree(a) else
    var leaves := Leaves(h, a, ids);
    Tree(RootOf(h, a, leaves), Levels(h, a, leaves), Hashes(ids), Values(ids), |ids|, a)
  }

  /** Folds level after level until one node is left. */
  method BuildLevels(h: Digest, a: Algorithm, leaves: seq<Hash>) returns (nodes: seq<seq<Hash>>)
    requires |leaves| > 0
    ensures nodes == Levels(h, a, leaves)
  {
    nodes := [leaves];
    var current := 0;
    while |nodes[current]| > 1
      invariant 0 <= current == |nodes| - 1 && |nodes[current]| > 0
      invariant nodes[..current] + Levels(h, a, nodes[current]) == Levels(h, a, leaves)
      decreases |nodes[current]|
    {
      ghost var before, last := nodes[..current], nodes[current];
      var next := NextLevel(h, a, nodes[current]);
      FoldOnce(h, a, before, last);
      nodes := nodes + [next];
      current := current + 1;
      assert nodes[..current] == before + [last];
    }
    assert nodes[..current] + [nodes[current]] == nodes;
  }

  lemma {:induction false} FoldOnce(h: Digest, a: Algorithm, before: seq<seq<Hash>>, last: seq<Hash>)
    requires |last| > 1
    ensures before + Levels(h, a, last) == (before + [last]) + Levels(h, a, NextLevel(h, a, last))
  {
  }

  /** The tree lays the files out in this order: path, content hash and leaf of each stand at one index,
      the leaf committing to the normalised path, the size and the content hash. */
  predicate LaidOut(h: Digest, a: Algorithm, order: seq<File>, t: Tree) {
    && |t.filePaths| == |t.contentHashes| == t.fileCount == |order| && t.algorithm == a
    && (order == [] ==> t.nodes == []) && (order != [] ==> t.nodes != [] && |t.nodes[0]| == |order|)
    && forall i :: 0 <= i < |order| ==>
         && t.filePaths[i] == Normalize(order[i].path).value && t.contentHashes[i] == order[i].hash
         && t.nodes[0][i] == Hash(a, h(LeafInput(Identity(Normalize(order[i].path), order[i].size, order[i].hash), a)))
  }

  lemma {:induction false} TreeLaysOut(h: Digest, a: Algorithm, order: seq<File>)
    ensures LaidOut(h, a, order, TreeOf(h, a, Identities(order)))
  {
  }

  /** Sorting identities is sorting the files they came from. */
  lemma {:induction false} LiftOrder(files: seq<File>, ids: seq<Identity>) returns (order: seq<File>)
    requires multiset(ids) == multiset(Identities(files))
    ensures multiset(order) == multiset(files) && Identities(order) == ids
    decreases |ids|
  {
    assert |ids| == |multiset(ids)| == |Identities(files)|;
    if ids == [] {
      order := [];
    } else {
      var k := FileOf(files, ids[0], ids);
      LiftRest(files, ids, k);
      var tail := LiftOrder(files[..k] + files[k + 1..], ids[1..]);
      order := [files[k]] + tail;
      LiftCons(files, ids, k, tail);
    }
  }

  lemma {:induction false} FileOf(files: seq<File>, id: Identity, ids: seq<Identity>) returns (k: nat)
    requires id in ids && multiset(ids) == multiset(Identities(files))
    ensures k < |files| && IdentityOf(files[k]) == id
  {
    assert id in multiset(ids);
    assert id in multiset(Identities(files));
    assert id in Identities(files);
    k :| 0 <= k < |Identities(files)| && Identities(files)[k] == id;
  }

  lemma {:induction false} LiftRest(files: seq<File>, ids: seq<Identity>, k: nat)
    requires ids != [] && k < |files| && IdentityOf(files[k]) == ids[0] && multiset(ids) == multiset(Identities(files))
    ensures multiset(ids[1..]) == multiset(Identities(files[..k] + files[k + 1..]))
  {
    MapWithoutOne(IdentityOf, files, k);
    MultisetTail(ids);
  }

  lemma {:induction false} LiftCons(files: seq<File>, ids: seq<Identity>, k: nat, tail: seq<File>)
    requires ids != [] && k < |files| && IdentityOf(files[k]) == ids[0]
    requires multiset(tail) == multiset(files[..k] + files[k + 1..]) && Identities(tail) == ids[1..]
    ensures multiset([files[k]] + tail) == multiset(files) && Identities([files[k]] + tail) == ids
  {
    PutBack(files, k, tail);
    IdentitiesCons(files[k], tail);
    assert ids == [ids[0]] + ids[1..];
  }

  lemma {:induction false} PutBack(files: seq<File>, k: nat, tail: seq<File>)
    requires k < |files| && multiset(tail) == multiset(files[..k] + files[k + 1..])
    ensures multiset([files[k]] + tail) == multiset(files)
  {
    WithoutOne(files, k);
  }

  lemma {:induction false} IdentitiesCons(f: File, tail: seq<File>)
    ensures Identities([f] + tail) == [IdentityOf(f)] + Identities(tail)
  {
  }

  /** Normalise, sort, hash the leaves and fold them to the root. The files come out in tree order, each
      with its path, content hash and leaf at one index. */
  method FromFileHashes(h: Digest, files: seq<File>, a: Algorithm) returns (t: Tree)
    ensures t == TreeOf(h, a, Sort(Identities(files)))
    ensures exists order: seq<File> ::
      multiset(order) == multiset(files) && Sorted(Identities(order)) && LaidOut(h, a, order, t)
  {
    ghost var sorted := Sort(Identities(files));
    SortSorts(Identities(files));
    ghost var order := LiftOrder(files, sorted);
    TreeLaysOut(h, a, order);
    if files == [] {
      assert sorted == [];
      t := EmptyTree(a);
    } else {
      var ids := Sort(Identities(files));
      assert |ids| == |multiset(ids)| == |Identities(files)|;
      var leaves := Leaves(h, a, ids);
      var nodes := BuildLevels(h, a, leaves);
      LastLevelIsRoot(h, a, leaves);
      t := Tree(nodes[|nodes| - 1][0], nodes, Hashes(ids), Values(ids), |ids|, a);
    }
  }

  lemma {:induction false} WithoutOne<A>(s: seq<A>, k: nat)
    requires k < |s|
    ensures multiset(s[..k] + s[k + 1..]) == multiset(s) - multiset{s[k]}
    ensures multiset(s) == multiset(s[..k] + s[k + 1..]) + multiset{s[k]}
  {
    assert s == s[..k] + [s[k]] + s[k + 1..];
  }

  lemma {:induction false} MapWithoutOne<A, B>(f: A -> B, s: seq<A>, k: nat)
    requires k < |s|
    ensures multiset(Map(f, s)) == multiset(Map(f, s[..k] + s[k + 1..])) + multiset{f(s[k])}
  {
    var m := Map(f, s);
    WithoutOne(m, k);
    assert Map(f, s[..k] + s[k + 1..]) == m[..k] + m[k + 1..];
  }

  lemma {:induction false} MapOfPermutation<A, B>(f: A -> B, s: seq<A>, t: seq<A>)
    requires multiset(s) == multiset(t)
    ensures multiset(Map(f, s)) == multiset(Map(f, t))
  {
    if s == [] {
      assert |t| == |multiset(t)| == 0;
    } else {
      assert s[0] in multiset(t);
      var k :| 0 <= k < |t| && t[k] == s[0];
      var s', t' := s[..0] + s[1..], t[..k] + t[k + 1..];
      assert multiset(s') == multiset(t') by {
        WithoutOne(s, 0);
        WithoutOne(t, k);
      }
      MapOfPermutation(f, s', t');
      assert multiset(Map(f, s)) == multiset(Map(f, t)) by {
        MapWithoutOne(f, s, 0);
        MapWithoutOne(f, t, k);
      }
    }
  }

  /** The tree does not depend on the order of the input: levels, root, hashes and paths all agree. */
  lemma {:induction false} OrderIndependent(h: Digest, a: Algorithm, f: seq<File>, g: seq<File>)
    requires multiset(f) == multiset(g)
    ensures TreeOf(h, a, Sort(Identities(f))) == TreeOf(h, a, Sort(Identities(g)))
  {
    MapOfPermutation(IdentityOf, f, g);
    SortSorts(Identities(f));
    SortSorts(Identities(g));
    SortedIsUnique(Sort(Identities(f)), Sort(Identities(g)));
  }

  /** Nor on which spelling of a path was given, or which sort was used. */
  lemma {:induction false} AnySortWillDo(ids: seq<Identity>, sorted: seq<Identity>)
    requires Sorted(sorted) && multiset(sorted) == multiset(ids)
    ensures sorted == Sort(ids)
  {
    SortSorts(ids);
    SortedIsUnique(sorted, Sort(ids));
  }

  // ---------------------------------------------------------------- proofs

  /** Walks up the levels collecting siblings. */
  method Climb(h: Digest, a: Algorithm, nodes: seq<seq<Hash>>, fileIndex: nat) returns (proof: seq<Hash>)
    requires |nodes| > 0 && nodes == Levels(h, a, nodes[0]) && fileIndex < |nodes[0]|
    ensures proof == ProofFrom(h, a, nodes[0], fileIndex)
  {
    proof := [];
    var index: nat := fileIndex;
    ghost var level := nodes[0];
    assert nodes[0..] == nodes;
    for l := 0 to |nodes| - 1
      invariant nodes[l..] == Levels(h, a, level) && index < |level|
      invariant proof + ProofFrom(h, a, level, index) == ProofFrom(h, a, nodes[0], fileIndex)
    {
      ClimbOnce(h, a, nodes, l, level, index, proof);
      var sibling := if index % 2 == 0 then index + 1 else index - 1;
      if sibling < |nodes[l]| {
        proof := proof + [nodes[l][sibling]];
      } else {
        proof := proof + [nodes[l][index]];
      }
      level := NextLevel(h, a, level);
      index := index / 2;
    }
    assert |Levels(h, a, level)| == 1;
  }

  /** A file outside the tree has no proof, nor has any file of a tree read back from its root alone. */
  method GetProof(h: Digest, ids: seq<Identity>, a: Algorithm, t: Tree, fileIndex: nat) returns (r: Option<seq<Hash>>)
    requires t == TreeOf(h, a, ids) || t.nodes == []
    ensures r == if t.nodes != [] && fileIndex < |ids| then Some(ProofFrom(h, a, Leaves(h, a, ids), fileIndex)) else None
  {
    if fileIndex >= |t.contentHashes| || t.nodes == [] { return None; }
    var proof := Climb(h, a, t.nodes, fileIndex);
    r := Some(proof);
  }

  lemma {:induction false} ClimbOnce(
      h: Digest, a: Algorithm, nodes: seq<seq<Hash>>, l: nat, level: seq<Hash>, i: nat, proof: seq<Hash>)
    requires l < |nodes| - 1 && nodes[l..] == Levels(h, a, level) && i < |level|
    ensures nodes[l] == level && |level| > 1
    ensures nodes[l + 1..] == Levels(h, a, NextLevel(h, a, level)) && i / 2 < |NextLevel(h, a, level)|
    ensures proof + ProofFrom(h, a, level, i)
            == (proof + [Sibling(level, i)]) + ProofFrom(h, a, NextLevel(h, a, level), i / 2)
  {
    LevelsStep(h, a, level);
    TailStep(nodes, l);
    ProofStep(h, a, level, i, proof);
  }

  lemma {:induction false} TailStep(nodes: seq<seq<Hash>>, l: nat)
    requires l < |nodes| - 1
    ensures |nodes[l..]| > 1 && nodes[l..][0] == nodes[l] && nodes[l..][1..] == nodes[l + 1..]
  {
  }

  lemma {:induction false} ProofStep(h: Digest, a: Algorithm, level: seq<Hash>, i: nat, proof: seq<Hash>)
    requires |level| > 1 && i < |level|
    ensures i / 2 < |NextLevel(h, a, level)|
    ensures proof + ProofFrom(h, a, level, i)
            == (proof + [Sibling(level, i)]) + ProofFrom(h, a, NextLevel(h, a, level), i / 2)
  {
    assert i / 2 < Half(|level|);
  }

  lemma {:induction false} LevelsStep(h: Digest, a: Algorithm, level: seq<Hash>)
    requires |Levels(h, a, level)| > 1
    ensures |level| > 1
    ensures Levels(h, a, level)[0] == level && Levels(h, a, level)[1..] == Levels(h, a, NextLevel(h, a, level))
  {
  }

  // ---------------------------------------------------------------- binding

  ghost predicate AllFitIds(ids: seq<Identity>) { forall i :: 0 <= i < |ids| ==> FitsIdentity(ids[i]) }

  /** Every string hashed to build a tree. */
  ghost function Hashed(h: Digest, a: Algorithm, ids: seq<Identity>): set<Text> {
    (set i | 0 <= i < |ids| :: LeafInput(ids[i], a)) + HashedAbove(h, a, Leaves(h, a, ids))
  }

  /** The root binds the files: two lists of one length with one root commit to the same identities in
      the same order, or two different strings hashed for them have one digest, and here they are. */
  lemma {:induction false} Binding(h: Digest, a: Algorithm, u: seq<Identity>, v: seq<Identity>) returns (x: Text, y: Text)
    requires Digests(h, a) && AllFitIds(u) && AllFitIds(v) && |u| == |v| > 0
    requires TreeOf(h, a, u).root == TreeOf(h, a, v).root
    ensures u == v || (Collision(h, x, y) && x in Hashed(h, a, u) && y in Hashed(h, a, v))
  {
    var lu, lv := Leaves(h, a, u), Leaves(h, a, v);
    x, y := RootBinding(h, a, lu, lv);
    if lu == lv && u != v {
      var k :| 0 <= k < |u| && u[k] != v[k];
      x, y := LeafInput(u[k], a), LeafInput(v[k], a);
      assert lu[k] == lv[k];
      if x == y { LeafInputInjective(u[k], v[k], a); }
    }
  }

  /** The same, from the files as they were given. */
  lemma {:induction false} FilesBinding(h: Digest, a: Algorithm, f: seq<File>, g: seq<File>) returns (x: Text, y: Text)
    requires Digests(h, a) && AllFitIds(Identities(f)) && AllFitIds(Identities(g)) && |f| == |g| > 0
    requires TreeOf(h, a, Sort(Identities(f))).root == TreeOf(h, a, Sort(Identities(g))).root
    ensures
      var u, v := Sort(Identities(f)), Sort(Identities(g));
      u == v || (Collision(h, x, y) && x in Hashed(h, a, u) && y in Hashed(h, a, v))
  {
    var u, v := Sort(Identities(f)), Sort(Identities(g));
    SortedFit(Identities(f));
    SortedFit(Identities(g));
    x, y := Binding(h, a, u, v);
  }

  lemma {:induction false} SortedFit(ids: seq<Identity>)
    requires AllFitIds(ids)
    ensures AllFitIds(Sort(ids)) && |Sort(ids)| == |ids|
  {
    var u := Sort(ids);
    SortSorts(ids);
    assert |u| == |multiset(u)| == |ids|;
    forall i | 0 <= i < |u| ensures FitsIdentity(u[i]) {
      assert u[i] in multiset(u);
      var j :| 0 <= j < |ids| && ids[j] == u[i];
    }
  }

  /** Equal length is needed: an odd list and the same list with its last file given twice are both in
      tree order and have one root. */
  lemma {:induction false} RepeatedFileKeepsRoot(h: Digest, a: Algorithm, ids: seq<Identity>)
    requires |ids| > 1 && |ids| % 2 == 1 && Sorted(ids)
    ensures
      var longer := ids + [ids[|ids| - 1]];
      Sorted(longer) && TreeOf(h, a, longer).root == TreeOf(h, a, ids).root
  {
    var last := ids[|ids| - 1];
    CompareOrder(last, last);
    assert Leaves(h, a, ids + [last]) == Leaves(h, a, ids) + [Leaves(h, a, ids)[|ids| - 1]];
    RepeatedLastKeepsRoot(h, a, Leaves(h, a, ids));
  }

  // ---------------------------------------------------------------- serialisation

  function ToBytes(t: Tree): Text {
    [AlgorithmTag(t.algorithm)] + LittleEndian(t.fileCount, 4) + LittleEndian(|t.root.bytes|, 4) + t.root.bytes
  }

  function FromBytes(b: Text): Option<Tree> {
    if |b| < 9 || b[0] > 2 then None else
    var a := if b[0] == 0 then Crc32 else if b[0] == 1 then XxHash else Sha256;
    var count, length := FromLittleEndian(b[1..5]), FromLittleEndian(b[5..9]);
    if length != (if count == 0 then 0 else OutputSize(a)) then None
    else if 9 + length != |b| then None
    else Some(Tree(Hash(a, b[9..]), [], [], [], count, a))
  }

  /** The shape of every tree the module builds. */
  predicate RootFits(t: Tree) {
    && t.root.algorithm == t.algorithm
    && |t.root.bytes| == if t.fileCount == 0 then 0 else OutputSize(t.algorithm)
  }

  function RootOnly(t: Tree): Tree { t.(nodes := [], contentHashes := [], filePaths := []) }

  lemma {:induction false} BuiltTreesFit(h: Digest, a: Algorithm, ids: seq<Identity>)
    requires Digests(h, a)
    ensures RootFits(TreeOf(h, a, ids))
  {
    if ids != [] { RootIsDigest(h, a, Leaves(h, a, ids)); }
  }

  lemma {:induction false} RootIsDigest(h: Digest, a: Algorithm, level: seq<Hash>)
    requires Digests(h, a) && |level| > 0
    requires forall i :: 0 <= i < |level| ==> level[i].algorithm == a && |level[i].bytes| == OutputSize(a)
    ensures RootOf(h, a, level).algorithm == a && |RootOf(h, a, level).bytes| == OutputSize(a)
    decreases |level|
  {
    if |level| > 1 { RootIsDigest(h, a, NextLevel(h, a, level)); }
  }

  lemma {:induction false} FieldsOfBytes(t: Tree)
    ensures
      var b := ToBytes(t);
      && |b| == 9 + |t.root.bytes| && b[0] == AlgorithmTag(t.algorithm)
      && b[1..5] == LittleEndian(t.fileCount, 4)
      && b[5..9] == LittleEndian(|t.root.bytes|, 4) && b[9..] == t.root.bytes
  {
  }

  /** What is written reads back with its algorithm, count and root, exactly when the count fits its
      four bytes; a larger count is truncated on the way out. */
  lemma {:induction false} SerialisedReadsBack(t: Tree)
    requires RootFits(t)
    ensures FromBytes(ToBytes(t)) == Some(RootOnly(t)) <==> t.fileCount < TWO_32
  {
    var b := ToBytes(t);
    FieldsOfBytes(t);
    Widths();
    ReadBack(|t.root.bytes|, 4);
    WriteBack(LittleEndian(t.fileCount, 4));
    if t.fileCount < TWO_32 { ReadBack(t.fileCount, 4); }
  }

  /** And any buffer that reads back is rewritten byte for byte. */
  lemma {:induction false} AcceptedBytesRewrite(b: Text)
    requires FromBytes(b).Some?
    ensures ToBytes(FromBytes(b).value) == b
    ensures
      var t := FromBytes(b).value;
      RootFits(t) && t == RootOnly(t) && t.fileCount < TWO_32
  {
    Widths();
    WriteBack(b[1..5]);
    WriteBack(b[5..9]);
    assert b == [b[0]] + b[1..5] + b[5..9] + b[9..];
  }

  /** The stored bytes bind the files without an assumption on the lengths: the count is in them. */
  lemma {:induction false} SerialisedBinding(h: Digest, a: Algorithm, u: seq<Identity>, v: seq<Identity>) returns (x: Text, y: Text)
    requires Digests(h, a) && AllFitIds(u) && AllFitIds(v) && |u| < TWO_32 && |v| < TWO_32
    requires ToBytes(TreeOf(h, a, u)) == ToBytes(TreeOf(h, a, v))
    ensures u == v || (Collision(h, x, y) && x in Hashed(h, a, u) && y in Hashed(h, a, v))
  {
    var s, t := TreeOf(h, a, u), TreeOf(h, a, v);
    BuiltTreesFit(h, a, u);
    BuiltTreesFit(h, a, v);
    SerialisedReadsBack(s);
    SerialisedReadsBack(t);
    assert s.fileCount == RootOnly(s).fileCount == RootOnly(t).fileCount == t.fileCount;
    assert s.root == RootOnly(s).root == RootOnly(t).root == t.root;
    x, y := [], [];
    if u != [] { x, y := Binding(h, a, u, v); }
  }
}
