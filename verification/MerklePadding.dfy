/**
 Binding for file lists of any two lengths. Repeating the last node of each odd level makes every
 tree perfect; the root stands for the leaves of that perfect tree, and for nothing less.
 */
module MerklePadding {
  import opened Bytes
  import opened Merkle
  import opened MerkleTree

  /** The left or right child of node `i` on a level of `n`: an odd last node is its own neighbour. */
  function Child(i: nat, n: nat, right: bool): (c: nat)
    requires i < Half(n)
    ensures c < n
  {
    if right && 2 * i + 1 < n then 2 * i + 1 else 2 * i
  }

  function Doubled(o: seq<nat>, n: nat): (d: seq<nat>)
    requires forall j :: 0 <= j < |o| ==> o[j] < Half(n)
    ensures |d| == 2 * |o| && (|o| > 0 ==> d[0] == 2 * o[0])
    ensures forall j :: 0 <= j < |d| ==> d[j] < n
  {
    seq(2 * |o|, j requires 0 <= j < 2 * |o| => Child(o[j / 2], n, j % 2 == 1))
  }

  /** Which of `n` leaves stands at each place of the perfect tree. */
  function Order(n: nat): (o: seq<nat>)
    requires n > 0
    ensures |o| == Pow2(CeilLog2(n)) && o[0] == 0
    ensures forall j :: 0 <= j < |o| ==> o[j] < n
  {
    if n == 1 then [0] else Doubled(Order(Half(n)), n)
  }

  function Padded<T>(s: seq<T>): (p: seq<T>)
    requires |s| > 0
    ensures |p| == |Order(|s|)| && p[0] == s[0]
  {
    var o := Order(|s|);
    seq(|o|, j requires 0 <= j < |o| => s[o[j]])
  }

  lemma {:induction false} OrderPair(n: nat, j: nat)
    requires n > 1 && j < |Order(Half(n))|
    ensures
      var i := Order(Half(n))[j];
      && i < Half(n) && |Order(n)| == 2 * |Order(Half(n))|
      && Order(n)[2 * j] == 2 * i && Order(n)[2 * j + 1] == Child(i, n, true)
  {
    DoubledAt(Order(Half(n)), n, j);
  }

  lemma {:induction false} DoubledAt(o: seq<nat>, n: nat, j: nat)
    requires j < |o| && forall k :: 0 <= k < |o| ==> o[k] < Half(n)
    ensures Doubled(o, n)[2 * j] == 2 * o[j] && Doubled(o, n)[2 * j + 1] == Child(o[j], n, true)
  {
    Twice(j);
  }

  lemma {:induction false} Twice(j: nat)
    ensures (2 * j) / 2 == j && (2 * j) % 2 == 0 && (2 * j + 1) / 2 == j && (2 * j + 1) % 2 == 1
  {
  }

  lemma {:induction false} PaddedAt<T>(s: seq<T>, j: nat)
    requires |s| > 0 && j < |Order(|s|)|
    ensures Padded(s)[j] == s[Order(|s|)[j]]
  {
  }

  /** Two neighbours of the padded level are the two children of one node of the padded level above. */
  lemma {:induction false} PaddedPair(h: Digest, a: Algorithm, level: seq<Hash>, j: nat)
    requires |level| > 1 && j < |Order(Half(|level|))|
    ensures
      var i, p := Order(Half(|level|))[j], Padded(level);
      && i < Half(|level|) && 2 * j + 1 < |p| == 2 * |Order(Half(|level|))|
      && p[2 * j] == level[2 * i] && p[2 * j + 1] == Right(level, i)
      && Padded(NextLevel(h, a, level))[j] == Combine(h, a, p[2 * j], p[2 * j + 1])
  {
    PaddedChildren(level, j);
    PaddedAt(NextLevel(h, a, level), j);
  }

  lemma {:induction false} PaddedChildren(level: seq<Hash>, j: nat)
    requires |level| > 1 && j < |Order(Half(|level|))|
    ensures
      var i, p := Order(Half(|level|))[j], Padded(level);
      && i < Half(|level|) && 2 * j + 1 < |p| == 2 * |Order(Half(|level|))|
      && p[2 * j] == level[2 * i] && p[2 * j + 1] == Right(level, i)
  {
    OrderPair(|level|, j);
    PaddedAt(level, 2 * j);
    PaddedAt(level, 2 * j + 1);
  }

  /** Different padded levels below equal padded levels exhibit a collision. */
  lemma {:induction false} PaddedLevelBinding(h: Digest, a: Algorithm, u: seq<Hash>, v: seq<Hash>) returns (x: Text, y: Text)
    requires |u| > 1 && |v| > 1 && AllFit(u) && AllFit(v) && Padded(u) != Padded(v)
    requires Padded(NextLevel(h, a, u)) == Padded(NextLevel(h, a, v))
    ensures Collision(h, x, y) && x in HashedAbove(h, a, u) && y in HashedAbove(h, a, v)
  {
    var nu, nv := NextLevel(h, a, u), NextLevel(h, a, v);
    PaddedLength(h, a, u);
    PaddedLength(h, a, v);
    var j := FirstPair(Padded(u), Padded(v), |Padded(nu)|);
    assert Padded(nu)[j] == Padded(nv)[j];
    x, y := PairBinding(h, a, u, v, j);
  }

  lemma {:induction false} PaddedLength(h: Digest, a: Algorithm, level: seq<Hash>)
    requires |level| > 1
    ensures |Padded(NextLevel(h, a, level))| == |Order(Half(|level|))|
    ensures |Padded(level)| == 2 * |Order(Half(|level|))|
  {
    OrderPair(|level|, 0);
  }

  lemma {:induction false} FirstPair<T>(p: seq<T>, q: seq<T>, m: nat) returns (j: nat)
    requires p != q && |p| == |q| == 2 * m
    ensures j < m && (p[2 * j] != q[2 * j] || p[2 * j + 1] != q[2 * j + 1])
  {
    var k :| 0 <= k < |p| && p[k] != q[k];
    j := k / 2;
    assert k == 2 * j || k == 2 * j + 1;
  }

  lemma {:induction false} PairBinding(h: Digest, a: Algorithm, u: seq<Hash>, v: seq<Hash>, j: nat) returns (x: Text, y: Text)
    requires |u| > 1 && |v| > 1 && AllFit(u) && AllFit(v) && |Padded(u)| == |Padded(v)|
    requires j < |Order(Half(|u|))| && j < |Order(Half(|v|))| && 2 * j + 1 < |Padded(u)|
    requires Padded(u)[2 * j] != Padded(v)[2 * j] || Padded(u)[2 * j + 1] != Padded(v)[2 * j + 1]
    requires Padded(NextLevel(h, a, u))[j] == Padded(NextLevel(h, a, v))[j]
    ensures Collision(h, x, y) && x in HashedAbove(h, a, u) && y in HashedAbove(h, a, v)
  {
    var i, k := Order(Half(|u|))[j], Order(Half(|v|))[j];
    PaddedPair(h, a, u, j);
    PaddedPair(h, a, v, j);
    x, y := PairInput(a, u, i), PairInput(a, v, k);
    if x == y { NodeInputInjective(u[2 * i], Right(u, i), v[2 * k], Right(v, k), a); }
  }

  /** Trees of one depth with one root have the same padded leaves, or here is a collision. */
  lemma {:induction false} SameDepthBinding(h: Digest, a: Algorithm, u: seq<Hash>, v: seq<Hash>) returns (x: Text, y: Text)
    requires Digests(h, a) && |u| > 0 && |v| > 0 && AllFit(u) && AllFit(v)
    requires CeilLog2(|u|) == CeilLog2(|v|) && RootOf(h, a, u) == RootOf(h, a, v)
    ensures Padded(u) == Padded(v) ||
            (Collision(h, x, y) && x in HashedAbove(h, a, u) && y in HashedAbove(h, a, v))
    decreases |u|
  {
    x, y := [], [];
    if |u| > 1 {
      assert |v| > 1;
      var nu, nv := NextLevel(h, a, u), NextLevel(h, a, v);
      NextLevelFits(h, a, u);
      NextLevelFits(h, a, v);
      x, y := SameDepthBinding(h, a, nu, nv);
      if Padded(nu) == Padded(nv) && Padded(u) != Padded(v) { x, y := PaddedLevelBinding(h, a, u, v); }
    }
  }

  // ---------------------------------------------------------------- different depths

  /** A level some folds above another, in one tree. */
  ghost predicate Above(h: Digest, a: Algorithm, level: seq<Hash>, up: seq<Hash>, k: nat) {
    && |level| > 0 && |up| > 0 && CeilLog2(|up|) + k == CeilLog2(|level|) && AllFit(up)
    && RootOf(h, a, up) == RootOf(h, a, level) && HashedAbove(h, a, up) <= HashedAbove(h, a, level)
  }

  ghost predicate HashedFrom(h: Digest, a: Algorithm, level: seq<Hash>, node: Hash, l: Hash, r: Hash) {
    node == Combine(h, a, l, r) && NodeInput(l, r, a) in HashedAbove(h, a, level)
  }

  lemma {:induction false} AboveTrans(
      h: Digest, a: Algorithm, level: seq<Hash>, mid: seq<Hash>, up: seq<Hash>, k: nat, node: Hash, l: Hash, r: Hash)
    requires Above(h, a, level, mid, 1) && Above(h, a, mid, up, k) && HashedFrom(h, a, mid, node, l, r)
    ensures Above(h, a, level, up, k + 1) && HashedFrom(h, a, level, node, l, r)
  {
    var low, middle, high := HashedAbove(h, a, level), HashedAbove(h, a, mid), HashedAbove(h, a, up);
    assert high <= middle <= low;
  }

  /** Some levels up the root is the same, and the first node there was hashed from two below it. */
  lemma {:induction false} ClimbTo(h: Digest, a: Algorithm, level: seq<Hash>, k: nat)
    returns (up: seq<Hash>, l: Hash, r: Hash)
    requires Digests(h, a) && |level| > 0 && 0 < k <= CeilLog2(|level|)
    ensures Above(h, a, level, up, k) && HashedFrom(h, a, level, up[0], l, r)
    decreases k
  {
    var next := NextLevel(h, a, level);
    OneUp(h, a, level);
    if k == 1 {
      up, l, r := next, level[0], Right(level, 0);
    } else {
      up, l, r := ClimbTo(h, a, next, k - 1);
      AboveTrans(h, a, level, next, up, k - 1, up[0], l, r);
    }
  }

  lemma {:induction false} OneUp(h: Digest, a: Algorithm, level: seq<Hash>)
    requires Digests(h, a) && |level| > 0 && CeilLog2(|level|) > 0
    ensures |level| > 1 && Above(h, a, level, NextLevel(h, a, level), 1)
    ensures HashedFrom(h, a, level, NextLevel(h, a, level)[0], level[0], Right(level, 0))
  {
    NextLevelFits(h, a, level);
    assert PairInput(a, level, 0) in HashedAbove(h, a, level);
  }

  // ---------------------------------------------------------------- from the files

  /** A shallower tree never shares its root with a deeper one, short of a collision: a leaf is no node. */
  lemma {:induction false} DepthBinding(h: Digest, a: Algorithm, u: seq<Identity>, v: seq<Identity>) returns (x: Text, y: Text)
    requires Digests(h, a) && AllFitIds(u) && AllFitIds(v) && |u| > 0 && |v| > 0
    requires CeilLog2(|u|) < CeilLog2(|v|) && RootOf(h, a, Leaves(h, a, u)) == RootOf(h, a, Leaves(h, a, v))
    ensures Collision(h, x, y) && x in Hashed(h, a, u) && y in Hashed(h, a, v)
  {
    var lu, lv, k := Leaves(h, a, u), Leaves(h, a, v), CeilLog2(|v|) - CeilLog2(|u|);
    var up, l, r := ClimbTo(h, a, lv, k);
    x, y := SameDepthBinding(h, a, lu, up);
    if Padded(lu) == Padded(up) {
      x, y := LeafInput(u[0], a), NodeInput(l, r, a);
      LeafIsNotNode(u[0], l, r, a, a);
      assert lu[0] == Padded(lu)[0] == Padded(up)[0] == up[0];
    }
  }

  lemma {:induction false} LeafBinding(h: Digest, a: Algorithm, u: seq<Identity>, v: seq<Identity>) returns (x: Text, y: Text)
    requires Digests(h, a) && AllFitIds(u) && AllFitIds(v) && |u| > 0 && |v| > 0
    requires Padded(Leaves(h, a, u)) == Padded(Leaves(h, a, v)) && Padded(u) != Padded(v)
    ensures Collision(h, x, y) && x in Hashed(h, a, u) && y in Hashed(h, a, v)
  {
    var lu, lv, ou, ov := Leaves(h, a, u), Leaves(h, a, v), Order(|u|), Order(|v|);
    assert |Padded(u)| == |Padded(lu)| == |Padded(lv)| == |Padded(v)|;
    var k :| 0 <= k < |Padded(u)| && Padded(u)[k] != Padded(v)[k];
    var x', y' := u[ou[k]], v[ov[k]];
    assert Padded(lu)[k] == LeafHash(h, a, x') && Padded(lv)[k] == LeafHash(h, a, y');
    x, y := LeafInput(x', a), LeafInput(y', a);
    if x == y { LeafInputInjective(x', y', a); }
  }

  /** The root binds the files whatever their number: two lists with one root agree once each odd level's
      last node is repeated, or two different strings hashed for them have one digest, and here they are. */
  lemma {:induction false} AnyLengthBinding(h: Digest, a: Algorithm, u: seq<Identity>, v: seq<Identity>) returns (x: Text, y: Text)
    requires Digests(h, a) && AllFitIds(u) && AllFitIds(v) && |u| > 0 && |v| > 0
    requires TreeOf(h, a, u).root == TreeOf(h, a, v).root
    ensures Padded(u) == Padded(v) || (Collision(h, x, y) && x in Hashed(h, a, u) && y in Hashed(h, a, v))
  {
    var lu, lv := Leaves(h, a, u), Leaves(h, a, v);
    if CeilLog2(|u|) < CeilLog2(|v|) {
      x, y := DepthBinding(h, a, u, v);
    } else if CeilLog2(|v|) < CeilLog2(|u|) {
      y, x := DepthBinding(h, a, v, u);
    } else {
      x, y := SameDepthBinding(h, a, lu, lv);
      if Padded(lu) == Padded(lv) && Padded(u) != Padded(v) { x, y := LeafBinding(h, a, u, v); }
    }
  }

  lemma {:induction false} PaddedUp(h: Digest, a: Algorithm, u: seq<Hash>, v: seq<Hash>)
    requires |u| > 1 && |v| > 1 && Padded(u) == Padded(v)
    ensures Padded(NextLevel(h, a, u)) == Padded(NextLevel(h, a, v))
  {
    var nu, nv := Padded(NextLevel(h, a, u)), Padded(NextLevel(h, a, v));
    PaddedPair(h, a, u, 0);
    PaddedPair(h, a, v, 0);
    forall j | 0 <= j < |nu| ensures nu[j] == nv[j] {
      PaddedPair(h, a, u, j);
      PaddedPair(h, a, v, j);
    }
  }

  lemma {:induction false} PaddedRoot(h: Digest, a: Algorithm, u: seq<Hash>, v: seq<Hash>)
    requires |u| > 0 && |v| > 0 && Padded(u) == Padded(v)
    ensures RootOf(h, a, u) == RootOf(h, a, v)
    decreases |u|
  {
    assert |u| == 1 <==> |Padded(u)| == 1;
    assert |v| == 1 <==> |Padded(v)| == 1;
    if |u| == 1 {
      assert u[0] == Padded(u)[0] == Padded(v)[0] == v[0];
    } else {
      PaddedUp(h, a, u, v);
      PaddedRoot(h, a, NextLevel(h, a, u), NextLevel(h, a, v));
    }
  }

  /** And no more than that is bound: lists that agree once padded have one root. */
  lemma {:induction false} PaddingDecidesRoot(h: Digest, a: Algorithm, u: seq<Identity>, v: seq<Identity>)
    requires |u| > 0 && |v| > 0 && Padded(u) == Padded(v)
    ensures TreeOf(h, a, u).root == TreeOf(h, a, v).root
  {
    var lu, lv := Leaves(h, a, u), Leaves(h, a, v);
    forall j | 0 <= j < |Padded(lu)| ensures j < |Padded(lv)| && Padded(lu)[j] == Padded(lv)[j] {
      assert Padded(u)[j] == Padded(v)[j];
    }
    assert Padded(lu) == Padded(lv);
    PaddedRoot(h, a, lu, lv);
  }
}
