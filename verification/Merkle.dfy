/** The binary Merkle tree: leaves `h(0x00 || item)`, nodes `h(0x01 || left || right)`, and the last
    node of an odd layer paired with itself. */
module Merkle {
  import opened Bytes
  import opened Hashing

  datatype ProofStep = ProofStep(sibling: Hash, siblingIsLeft: bool)

  datatype MerkleProof = MerkleProof(leafIndex: nat, leafHash: Hash, path: seq<ProofStep>, root: Hash)

  // ---- The tree as a specification ----

  function Leaves(h: HashFn, items: seq<Bytes>): (layer: seq<Hash>)
    ensures |layer| == |items|
  {
    seq(|items|, i requires 0 <= i < |items| => HashLeaf(h, items[i]))
  }

  function Half(n: nat): (r: nat)
    ensures 2 * r == n || 2 * r == n + 1
  {
    (n + 1) / 2
  }

  /** Index of the right child of parent `i`; the left child itself at the end of an odd layer. */
  function RightChild(n: nat, i: nat): (r: nat)
    requires i < Half(n)
    ensures r < n
  {
    if 2 * i + 1 < n then 2 * i + 1 else 2 * i
  }

  function PairInput(layer: seq<Hash>, i: nat): (r: Bytes)
    requires i < Half(|layer|)
  {
    NodeInput(layer[2 * i], layer[RightChild(|layer|, i)])
  }

  function HashPair(h: HashFn, layer: seq<Hash>, i: nat): (r: Hash)
    requires i < Half(|layer|)
  {
    h(PairInput(layer, i))
  }

  function Next(h: HashFn, layer: seq<Hash>): (next: seq<Hash>)
    ensures |next| == Half(|layer|)
  {
    seq(Half(|layer|), i requires 0 <= i < Half(|layer|) => HashPair(h, layer, i))
  }

  function Root(h: HashFn, layer: seq<Hash>): (r: Hash)
    requires |layer| > 0
    decreases |layer|
  {
    if |layer| == 1 then layer[0] else Root(h, Next(h, layer))
  }

  function TreeRoot(h: HashFn, items: seq<Bytes>): (r: Hash) {
    if items == [] then ZERO_HASH else Root(h, Leaves(h, items))
  }

  /** Number of layers above `n` leaves. */
  function Depth(n: nat): (d: nat) {
    if n <= 1 then 0 else 1 + Depth(Half(n))
  }

  function Pow2(d: nat): (r: nat)
    ensures r > 0
  {
    if d == 0 then 1 else 2 * Pow2(d - 1)
  }

  /** The depth is the ceiling of the base-two logarithm. */
  lemma {:induction false} DepthIsCeilLog2(n: nat)
    requires n > 0
    ensures n <= Pow2(Depth(n))
    ensures n > 1 ==> Pow2(Depth(n) - 1) < n
  {
    if n == 1 {
    } else {
      DepthIsCeilLog2(Half(n));
      if n == 2 {
        assert Depth(1) == 0;
      }
    }
  }

  function ApplyStep(h: HashFn, current: Hash, step: ProofStep): (r: Hash) {
    h(StepInput(current, step))
  }

  function StepInput(current: Hash, step: ProofStep): (r: Bytes) {
    if step.siblingIsLeft then NodeInput(step.sibling, current) else NodeInput(current, step.sibling)
  }

  /** The hash a path leads to from `leaf`. */
  function Fold(h: HashFn, leaf: Hash, path: seq<ProofStep>): (r: Hash) {
    if path == [] then leaf
    else ApplyStep(h, Fold(h, leaf, path[..|path| - 1]), path[|path| - 1])
  }

  // ---- The algorithms ----

  method NextLayer(h: HashFn, layer: seq<Hash>) returns (next: seq<Hash>)
    ensures next == Next(h, layer)
  {
    next := [];
    var i := 0;
    while i < |layer|
      invariant i == 2 * |next| && |next| <= Half(|layer|)
      invariant next == Next(h, layer)[..|next|]
    {
      var left := layer[i];
      var right := if i + 1 < |layer| then layer[i + 1] else layer[i];
      next := next + [HashNode(h, left, right)];
      i := i + 2;
    }
  }

  method ComputeRoot(h: HashFn, items: seq<Bytes>) returns (root: Hash)
    ensures root == TreeRoot(h, items)
  {
    if |items| == 0 {
      return ZERO_HASH;
    }
    var layer := Leaves(h, items);
    while |layer| > 1
      invariant |layer| > 0 && Root(h, layer) == Root(h, Leaves(h, items))
      decreases |layer|
    {
      layer := NextLayer(h, layer);
    }
    root := layer[0];
  }

  method Verify(h: HashFn, proof: MerkleProof) returns (ok: bool)
    ensures ok <==> Fold(h, proof.leafHash, proof.path) == proof.root
  {
    var current := proof.leafHash;
    for k := 0 to |proof.path|
      invariant current == Fold(h, proof.leafHash, proof.path[..k])
    {
      var step := proof.path[k];
      assert proof.path[..k + 1][..k] == proof.path[..k];
      current := if step.siblingIsLeft then HashNode(h, step.sibling, current)
                 else HashNode(h, current, step.sibling);
    }
    assert proof.path[..|proof.path|] == proof.path;
    ok := current == proof.root;
  }

  lemma {:induction false} FoldSnoc(h: HashFn, leaf: Hash, path: seq<ProofStep>, step: ProofStep)
    ensures Fold(h, leaf, path + [step]) == ApplyStep(h, Fold(h, leaf, path), step)
  {
    assert (path + [step])[..|path|] == path;
  }

  /** Hashing a node with its sibling is hashing their pair. */
  lemma {:induction false} SiblingPair(layer: seq<Hash>, i: nat, odd: bool)
    requires i < Half(|layer|) && (odd ==> 2 * i + 1 < |layer|)
    ensures
      var sibling := if odd then 2 * i else RightChild(|layer|, i);
      var index := if odd then 2 * i + 1 else 2 * i;
      StepInput(layer[index], ProofStep(layer[sibling], sibling < index)) == PairInput(layer, i)
  {
  }

  lemma {:induction false} Ascend(
    h: HashFn, leaf: Hash, path: seq<ProofStep>, layer: seq<Hash>, index: nat, sibling: nat)
    requires |layer| > 1 && index < |layer| && Fold(h, leaf, path) == layer[index]
    requires sibling == if index % 2 == 1 then index - 1 else RightChild(|layer|, index / 2)
    ensures Fold(h, leaf, path + [ProofStep(layer[sibling], sibling < index)]) == Next(h, layer)[index / 2]
  {
    var step, i := ProofStep(layer[sibling], sibling < index), index / 2;
    FoldSnoc(h, leaf, path, step);
    assert index == 2 * i + index % 2;
    SiblingPair(layer, i, index % 2 == 1);
    assert StepInput(layer[index], step) == PairInput(layer, i);
  }

  lemma {:induction false} TimesDouble(p: nat, q: nat, r: nat)
    ensures p * (2 * q + r) == (2 * p) * q + p * r
  {
  }

  lemma {:induction false} Remainder(n: nat, p: nat)
    requires p > 0
    ensures n == p * (n / p) + n % p && n % p < p
  {
  }

  lemma {:induction false} HalfOfQuotient(n: nat, p: nat)
    requires p > 0
    ensures n / p / 2 == n / (2 * p)
  {
    var m, low := n / p, n % p;
    var q, r := m / 2, m % 2;
    Remainder(n, p);
    TimesDouble(p, q, r);
    assert m == 2 * q + r && (r == 0 || r == 1);
    var rest := if r == 0 then low else p + low;
    assert n == (2 * p) * q + rest;
    QuotientIsUnique(n, 2 * p, q, rest);
  }

  /** Siblings are to the left exactly at the binary digits 1 of the index, least significant first. */
  predicate SidesOf(path: seq<ProofStep>, index: nat) {
    forall k :: 0 <= k < |path| ==> (path[k].siblingIsLeft <==> index / Pow2(k) % 2 == 1)
  }

  lemma {:induction false} SidesGrow(path: seq<ProofStep>, step: ProofStep, leafIndex: nat, index: nat)
    requires SidesOf(path, leafIndex) && index == leafIndex / Pow2(|path|)
    requires step.siblingIsLeft <==> index % 2 == 1
    ensures SidesOf(path + [step], leafIndex) && index / 2 == leafIndex / Pow2(|path + [step]|)
  {
    HalfOfQuotient(leafIndex, Pow2(|path|));
  }

  /** Completeness: every index in range has a proof that verifies against the tree's root, one step
      per layer, on the sides that the binary digits of the index say; an index out of range has none. */
  method BuildProof(h: HashFn, items: seq<Bytes>, leafIndex: nat) returns (proof: Option<MerkleProof>)
    ensures proof.Some? <==> leafIndex < |items|
    ensures proof.Some? ==>
      && proof.value.leafIndex == leafIndex
      && proof.value.leafHash == HashLeaf(h, items[leafIndex])
      && proof.value.root == TreeRoot(h, items)
      && Fold(h, proof.value.leafHash, proof.value.path) == proof.value.root
      && |proof.value.path| == Depth(|items|)
      && SidesOf(proof.value.path, leafIndex)
  {
    if |items| == 0 || leafIndex >= |items| {
      return None;
    }
    var layer := Leaves(h, items);
    var leafHash := layer[leafIndex];
    var root := ComputeRoot(h, items);
    var path: seq<ProofStep> := [];
    var index := leafIndex;
    while |layer| > 1
      invariant 0 <= index < |layer| && Root(h, layer) == root
      invariant Fold(h, leafHash, path) == layer[index]
      invariant |path| + Depth(|layer|) == Depth(|items|)
      invariant index == leafIndex / Pow2(|path|) && SidesOf(path, leafIndex)
      decreases |layer|
    {
      var siblingIndex :=
        if index % 2 == 0 then (if index + 1 <= |layer| - 1 then index + 1 else |layer| - 1)
        else index - 1;
      var siblingIsLeft := siblingIndex < index;
      Ascend(h, leafHash, path, layer, index, siblingIndex);
      SidesGrow(path, ProofStep(layer[siblingIndex], siblingIsLeft), leafIndex, index);
      path := path + [ProofStep(layer[siblingIndex], siblingIsLeft)];
      layer := NextLayer(h, layer);
      index := index / 2;
    }
    proof := Some(MerkleProof(leafIndex, leafHash, path, root));
  }

  lemma {:induction false} RootOfPair(h: HashFn, layer: seq<Hash>)
    requires |layer| == 2
    ensures Root(h, layer) == h([1] + layer[0] + layer[1])
  {
    assert |Next(h, layer)| == 1 && Next(h, layer)[0] == HashPair(h, layer, 0);
    assert Root(h, layer) == Root(h, Next(h, layer));
  }

  /** The roots of the smallest trees, written out. */
  lemma {:induction false} SmallRoots(h: HashFn, a: Bytes, b: Bytes, c: Bytes)
    ensures
      var x, y, z := h([0] + a), h([0] + b), h([0] + c);
      && TreeRoot(h, [a]) == x && TreeRoot(h, [a, b]) == h([1] + x + y)
      && TreeRoot(h, [a, b, c]) == h([1] + h([1] + x + y) + h([1] + z + z))
  {
    RootOfPair(h, Leaves(h, [a, b]));
    var three := Leaves(h, [a, b, c]);
    var next := Next(h, three);
    assert next[0] == HashPair(h, three, 0) && next[1] == HashPair(h, three, 1);
    assert RightChild(3, 0) == 1 && RightChild(3, 1) == 2;
    RootOfPair(h, next);
    assert Root(h, three) == Root(h, next);
  }

  /** A path is folded from its first step on, each step on the side it says. */
  lemma {:induction false} FoldCons(h: HashFn, leaf: Hash, step: ProofStep, path: seq<ProofStep>)
    ensures Fold(h, leaf, [step] + path) ==
      Fold(h, if step.siblingIsLeft then h([1] + step.sibling + leaf) else h([1] + leaf + step.sibling), path)
    decreases |path|
  {
    if path == [] {
      assert [step] + path == [] + [step];
      FoldSnoc(h, leaf, [], step);
    } else {
      var front, last := path[..|path| - 1], path[|path| - 1];
      assert path == front + [last] && [step] + path == ([step] + front) + [last];
      FoldCons(h, leaf, step, front);
      FoldSnoc(h, leaf, [step] + front, last);
    }
  }

  // ---- Layers of one tree ----

  function LayerAt(h: HashFn, layer: seq<Hash>, k: nat): (r: seq<Hash>)
    requires k <= Depth(|layer|)
    ensures Depth(|r|) == Depth(|layer|) - k
    ensures |layer| > 0 ==> |r| > 0
    decreases k
  {
    if k == 0 then layer else LayerAt(h, Next(h, layer), k - 1)
  }

  lemma {:induction false} LayerAtNext(h: HashFn, layer: seq<Hash>, k: nat)
    requires k < Depth(|layer|)
    ensures LayerAt(h, layer, k + 1) == Next(h, LayerAt(h, layer, k))
    decreases k
  {
    if k == 0 {
    } else {
      LayerAtNext(h, Next(h, layer), k - 1);
    }
  }

  lemma {:induction false} TopLayer(h: HashFn, layer: seq<Hash>)
    requires |layer| > 0
    ensures LayerAt(h, layer, Depth(|layer|)) == [Root(h, layer)]
    decreases |layer|
  {
    if |layer| == 1 {
    } else {
      TopLayer(h, Next(h, layer));
    }
  }

  /** Everything hashed while building the node layers above `layer`. */
  ghost function NodeInputs(h: HashFn, layer: seq<Hash>): (r: set<Bytes>)
    decreases |layer|
  {
    if |layer| <= 1 then {}
    else (set i | 0 <= i < Half(|layer|) :: PairInput(layer, i)) + NodeInputs(h, Next(h, layer))
  }

  ghost function LeafInputs(items: seq<Bytes>): (r: set<Bytes>) {
    set i | 0 <= i < |items| :: LeafInput(items[i])
  }

  ghost function TreeInputs(h: HashFn, items: seq<Bytes>): (r: set<Bytes>) {
    LeafInputs(items) + NodeInputs(h, Leaves(h, items))
  }

  lemma {:induction false} NodeInputAt(h: HashFn, layer: seq<Hash>, k: nat, i: nat)
    requires k < Depth(|layer|)
    requires i < Half(|LayerAt(h, layer, k)|)
    ensures PairInput(LayerAt(h, layer, k), i) in NodeInputs(h, layer)
    decreases k
  {
    if k == 0 {
    } else {
      NodeInputAt(h, Next(h, layer), k - 1, i);
    }
  }

  // ---- Soundness ----

  /** The input of step `k` of a path. */
  function InputAt(h: HashFn, leaf: Hash, path: seq<ProofStep>, k: nat): (r: Bytes)
    requires k < |path|
  {
    StepInput(Fold(h, leaf, path[..k]), path[k])
  }

  ghost function StepInputs(h: HashFn, leaf: Hash, path: seq<ProofStep>): (r: set<Bytes>) {
    set k | 0 <= k < |path| :: InputAt(h, leaf, path, k)
  }

  /** Everything hashed while following a path from `data`. */
  ghost function PathInputs(h: HashFn, data: Bytes, path: seq<ProofStep>): (r: set<Bytes>) {
    {LeafInput(data)} + StepInputs(h, HashLeaf(h, data), path)
  }

  /** A step that leads to a node of the tree starts from one of its children, or collides. */
  lemma {:induction false} StepDown(h: HashFn, current: Hash, step: ProofStep, layer: seq<Hash>, i: nat,
                 xs: set<Bytes>, ys: set<Bytes>)
    requires i < Half(|layer|) && ApplyStep(h, current, step) == HashPair(h, layer, i)
    requires StepInput(current, step) in xs && PairInput(layer, i) in ys
    ensures current in layer || Collision(h, xs, ys)
  {
    EqualHashes(h, StepInput(current, step), PairInput(layer, i), xs, ys);
    if StepInput(current, step) == PairInput(layer, i) {
      var left, right := layer[2 * i], layer[RightChild(|layer|, i)];
      if step.siblingIsLeft {
        NodeInputInjective(step.sibling, current, left, right);
      } else {
        NodeInputInjective(current, step.sibling, left, right);
      }
    }
  }

  /** Every input hashed along the path is in `xs`. */
  ghost predicate StepsIn(h: HashFn, leaf: Hash, path: seq<ProofStep>, xs: set<Bytes>) {
    forall k :: 0 <= k < |path| ==> InputAt(h, leaf, path, k) in xs
  }

  /** After `at` steps the path is at a node of layer `k`. */
  ghost predicate Reaches(h: HashFn, items: seq<Bytes>, leaf: Hash, path: seq<ProofStep>, at: nat, k: nat)
    requires at <= |path| && k <= Depth(|items|)
  {
    Fold(h, leaf, path[..at]) in LayerAt(h, Leaves(h, items), k)
  }

  /** One layer down from a node that the path reaches. */
  lemma {:induction false} OneLayerDown(h: HashFn, items: seq<Bytes>, leaf: Hash, path: seq<ProofStep>,
                                        at: nat, k: nat, xs: set<Bytes>)
    requires at < |path| && k < Depth(|items|) && StepsIn(h, leaf, path, xs)
    requires Reaches(h, items, leaf, path, at + 1, k + 1)
    ensures Collision(h, xs, TreeInputs(h, items)) || Reaches(h, items, leaf, path, at, k)
  {
    var leaves := Leaves(h, items);
    var layer, above := LayerAt(h, leaves, k), Fold(h, leaf, path[..at + 1]);
    LayerAtNext(h, leaves, k);
    var i :| 0 <= i < Half(|layer|) && above == Next(h, layer)[i];
    assert path[..at + 1][..at] == path[..at];
    assert InputAt(h, leaf, path, at) in xs;
    NodeInputAt(h, leaves, k, i);
    StepDown(h, Fold(h, leaf, path[..at]), path[at], layer, i, xs, TreeInputs(h, items));
  }

  /** The path is inside the tree after `at` steps, at layer `k`, or its inputs collide with those of the tree. */
  ghost predicate Inside(
    h: HashFn, items: seq<Bytes>, leaf: Hash, path: seq<ProofStep>, at: nat, k: nat, xs: set<Bytes>)
  {
    at <= |path| && k <= Depth(|items|) &&
    (Collision(h, xs, TreeInputs(h, items)) || Reaches(h, items, leaf, path, at, k))
  }

  lemma {:induction false} InsideBelow(h: HashFn, items: seq<Bytes>, leaf: Hash, path: seq<ProofStep>,
                                       at: nat, k: nat, xs: set<Bytes>)
    requires StepsIn(h, leaf, path, xs) && Inside(h, items, leaf, path, at + 1, k + 1, xs)
    ensures Inside(h, items, leaf, path, at, k, xs)
  {
    if !Collision(h, xs, TreeInputs(h, items)) {
      OneLayerDown(h, items, leaf, path, at, k, xs);
    }
  }

  lemma {:induction false} InsideAtRoot(h: HashFn, items: seq<Bytes>, leaf: Hash, path: seq<ProofStep>, xs: set<Bytes>)
    requires items != [] && Fold(h, leaf, path) == TreeRoot(h, items)
    ensures Inside(h, items, leaf, path, |path|, Depth(|items|), xs)
  {
    TopLayer(h, Leaves(h, items));
    assert path[..|path|] == path;
    assert Reaches(h, items, leaf, path, |path|, Depth(|items|));
  }

  /** Walking a path backwards from the root stays inside the tree. */
  lemma {:induction false} PathInsideTree(h: HashFn, items: seq<Bytes>, leaf: Hash, path: seq<ProofStep>,
                                          at: nat, k: nat, depth: nat, xs: set<Bytes>)
    requires items != [] && at <= |path| && depth == Depth(|items|) && |path| - at == depth - k
    requires StepsIn(h, leaf, path, xs) && Fold(h, leaf, path) == TreeRoot(h, items)
    ensures Inside(h, items, leaf, path, at, k, xs)
    decreases |path| - at
  {
    if at == |path| {
      InsideAtRoot(h, items, leaf, path, xs);
    } else {
      PathInsideTree(h, items, leaf, path, at + 1, k + 1, depth, xs);
      InsideBelow(h, items, leaf, path, at, k, xs);
    }
  }

  /** A shortened path: the leaf hash equals an inner node. */
  lemma {:induction false} ShortPath(h: HashFn, items: seq<Bytes>, data: Bytes, k: nat, xs: set<Bytes>)
    requires items != [] && k < Depth(|items|) && LeafInput(data) in xs
    requires HashLeaf(h, data) in LayerAt(h, Leaves(h, items), k + 1)
    ensures Collision(h, xs, TreeInputs(h, items))
  {
    LayerAtNext(h, Leaves(h, items), k);
    var layer := LayerAt(h, Leaves(h, items), k);
    var i :| 0 <= i < Half(|layer|) && HashLeaf(h, data) == Next(h, layer)[i];
    NodeInputAt(h, Leaves(h, items), k, i);
    LeafIsNotNode(data, layer[2 * i], layer[RightChild(|layer|, i)]);
  }

  /** An extended path: an inner step's hash equals a leaf. */
  lemma {:induction false} LongPath(h: HashFn, items: seq<Bytes>, current: Hash, step: ProofStep, xs: set<Bytes>)
    requires StepInput(current, step) in xs && ApplyStep(h, current, step) in Leaves(h, items)
    ensures Collision(h, xs, TreeInputs(h, items))
  {
    var i :| 0 <= i < |items| && ApplyStep(h, current, step) == HashLeaf(h, items[i]);
    if step.siblingIsLeft {
      LeafIsNotNode(items[i], step.sibling, current);
    } else {
      LeafIsNotNode(items[i], current, step.sibling);
    }
    assert LeafInput(items[i]) in TreeInputs(h, items);
  }

  lemma {:induction false} ExactPath(h: HashFn, items: seq<Bytes>, data: Bytes, xs: set<Bytes>)
    requires LeafInput(data) in xs && HashLeaf(h, data) in Leaves(h, items)
    ensures data in items || Collision(h, xs, TreeInputs(h, items))
  {
    var i :| 0 <= i < |items| && HashLeaf(h, data) == HashLeaf(h, items[i]);
    assert LeafInput(items[i]) in TreeInputs(h, items);
    EqualHashes(h, LeafInput(data), LeafInput(items[i]), xs, TreeInputs(h, items));
    if LeafInput(data) == LeafInput(items[i]) {
      LeafInputInjective(data, items[i]);
    }
  }

  lemma {:induction false} PathReachesLeaf(h: HashFn, items: seq<Bytes>, data: Bytes, path: seq<ProofStep>,
                                           at: nat, xs: set<Bytes>)
    requires at <= |path| && Reaches(h, items, HashLeaf(h, data), path, at, 0)
    requires LeafInput(data) in xs && StepsIn(h, HashLeaf(h, data), path, xs)
    ensures data in items || Collision(h, xs, TreeInputs(h, items))
  {
    if at > 0 {
      assert path[..at][..at - 1] == path[..at - 1];
      assert InputAt(h, HashLeaf(h, data), path, at - 1) in xs;
      LongPath(h, items, Fold(h, HashLeaf(h, data), path[..at - 1]), path[at - 1], xs);
    } else {
      ExactPath(h, items, data, xs);
    }
  }

  lemma {:induction false} SoundnessWithin(
    h: HashFn, items: seq<Bytes>, data: Bytes, path: seq<ProofStep>, xs: set<Bytes>)
    requires items != [] && Fold(h, HashLeaf(h, data), path) == TreeRoot(h, items)
    requires LeafInput(data) in xs && StepsIn(h, HashLeaf(h, data), path, xs)
    ensures data in items || Collision(h, xs, TreeInputs(h, items))
  {
    var depth := Depth(|items|);
    if |path| < depth {
      var k := depth - |path| - 1;
      PathInsideTree(h, items, HashLeaf(h, data), path, 0, k + 1, Depth(|items|), xs);
      if !Collision(h, xs, TreeInputs(h, items)) {
        assert path[..0] == [];
        ShortPath(h, items, data, k, xs);
      }
    } else {
      var at := |path| - depth;
      PathInsideTree(h, items, HashLeaf(h, data), path, at, 0, Depth(|items|), xs);
      if !Collision(h, xs, TreeInputs(h, items)) {
        PathReachesLeaf(h, items, data, path, at, xs);
      }
    }
  }

  /** Soundness for a path of any length: if it leads from the leaf hash of `data` to the root, then
      `data` is one of the items, or two inputs with the same hash are at hand: one hashed along the
      path, the other in the tree. */
  lemma {:induction false} MerkleSoundness(h: HashFn, items: seq<Bytes>, data: Bytes, path: seq<ProofStep>)
    requires items != [] && Fold(h, HashLeaf(h, data), path) == TreeRoot(h, items)
    ensures data in items || Collision(h, PathInputs(h, data, path), TreeInputs(h, items))
  {
    SoundnessWithin(h, items, data, path, PathInputs(h, data, path));
  }

  /** No path proves anything about the empty tree without exhibiting a preimage of the zero hash. */
  lemma {:induction false} EmptyTreeHasNoMembers(h: HashFn, data: Bytes, path: seq<ProofStep>)
    requires Fold(h, HashLeaf(h, data), path) == TreeRoot(h, [])
    ensures exists x :: x in PathInputs(h, data, path) && h(x) == ZERO_HASH
  {
    var x := if path == [] then LeafInput(data) else InputAt(h, HashLeaf(h, data), path, |path| - 1);
    assert x in PathInputs(h, data, path) && h(x) == ZERO_HASH;
  }

  // ---- What a root commits to ----

  /** The item at position `k` of the perfect tree that odd-node duplication amounts to. */
  function PadIndex(n: nat, k: nat): (j: nat)
    requires n > 0
    ensures j < n
    decreases n
  {
    if n == 1 then 0
    else
      var parent := PadIndex(Half(n), k / 2);
      if k % 2 == 0 then 2 * parent else RightChild(n, parent)
  }

  /** The items laid out over all leaves of the perfect tree. */
  function Padded<T>(xs: seq<T>): (r: seq<T>)
    requires |xs| > 0
    ensures |r| == Pow2(Depth(|xs|))
  {
    seq(Pow2(Depth(|xs|)), k requires 0 <= k < Pow2(Depth(|xs|)) => xs[PadIndex(|xs|, k)])
  }

  lemma {:induction false} PadIndexInRange(n: nat, k: nat)
    requires k < n
    ensures PadIndex(n, k) == k
    decreases n
  {
    if n == 1 {
    } else {
      PadIndexInRange(Half(n), k / 2);
    }
  }

  lemma {:induction false} PaddedNext(h: HashFn, layer: seq<Hash>, k: nat)
    requires |layer| > 1 && k < Pow2(Depth(Half(|layer|)))
    ensures Padded(Next(h, layer))[k]
         == h(NodeInput(Padded(layer)[2 * k], Padded(layer)[2 * k + 1]))
    ensures h(NodeInput(Padded(layer)[2 * k], Padded(layer)[2 * k + 1]))
         == h(PairInput(layer, PadIndex(Half(|layer|), k)))
    ensures NodeInput(Padded(layer)[2 * k], Padded(layer)[2 * k + 1]) in NodeInputs(h, layer)
  {
    var i := PadIndex(Half(|layer|), k);
    assert (2 * k) / 2 == k && (2 * k + 1) / 2 == k;
    assert NodeInput(Padded(layer)[2 * k], Padded(layer)[2 * k + 1]) == PairInput(layer, i);
  }

  /** Layers of one depth with equal padding have equal roots. */
  lemma {:induction false} PaddingDeterminesRoot(h: HashFn, a: seq<Hash>, b: seq<Hash>)
    requires |a| > 0 && |b| > 0 && Depth(|a|) == Depth(|b|) && Padded(a) == Padded(b)
    ensures Root(h, a) == Root(h, b)
    decreases |a|
  {
    if |a| == 1 {
      assert |b| == 1;
      assert Padded(a)[0] == a[0] && Padded(b)[0] == b[0];
    } else {
      var a', b' := Next(h, a), Next(h, b);
      forall k | 0 <= k < Pow2(Depth(|a'|)) ensures Padded(a')[k] == Padded(b')[k] {
        PaddedNext(h, a, k);
        PaddedNext(h, b, k);
      }
      assert Padded(a') == Padded(b');
      PaddingDeterminesRoot(h, a', b');
    }
  }

  lemma {:induction false} ChildrenAgree(h: HashFn, a: seq<Hash>, b: seq<Hash>, k: nat)
    requires |a| > 1 && |b| > 1 && Depth(|a|) == Depth(|b|) && k < Pow2(Depth(Half(|a|)))
    requires Padded(Next(h, a))[k] == Padded(Next(h, b))[k]
    requires !Collision(h, NodeInputs(h, a), NodeInputs(h, b))
    ensures Padded(a)[2 * k] == Padded(b)[2 * k] && Padded(a)[2 * k + 1] == Padded(b)[2 * k + 1]
  {
    PaddedNext(h, a, k);
    PaddedNext(h, b, k);
    NodeInputInjective(Padded(a)[2 * k], Padded(a)[2 * k + 1], Padded(b)[2 * k], Padded(b)[2 * k + 1]);
  }

  lemma {:induction false} PaddingAt(h: HashFn, a: seq<Hash>, b: seq<Hash>, j: nat)
    requires |a| > 1 && |b| > 1 && Depth(|a|) == Depth(|b|) && Padded(Next(h, a)) == Padded(Next(h, b))
    requires !Collision(h, NodeInputs(h, a), NodeInputs(h, b)) && j < |Padded(a)|
    ensures Padded(a)[j] == Padded(b)[j]
  {
    var k := j / 2;
    assert j == 2 * k || j == 2 * k + 1;
    assert k < Pow2(Depth(Half(|a|)));
    assert Padded(Next(h, a))[k] == Padded(Next(h, b))[k];
    ChildrenAgree(h, a, b, k);
  }

  lemma {:induction false} PaddingFromParents(h: HashFn, a: seq<Hash>, b: seq<Hash>)
    requires |a| > 1 && |b| > 1 && Depth(|a|) == Depth(|b|) && Padded(Next(h, a)) == Padded(Next(h, b))
    requires !Collision(h, NodeInputs(h, a), NodeInputs(h, b))
    ensures Padded(a) == Padded(b)
  {
    forall j | 0 <= j < |Padded(a)| ensures Padded(a)[j] == Padded(b)[j] {
      PaddingAt(h, a, b, j);
    }
  }

  /** Layers of one depth with equal roots have equal padding, or collide. */
  lemma {:induction false} RootDeterminesPadding(h: HashFn, a: seq<Hash>, b: seq<Hash>)
    requires |a| > 0 && |b| > 0 && Depth(|a|) == Depth(|b|) && Root(h, a) == Root(h, b)
    ensures Padded(a) == Padded(b) || Collision(h, NodeInputs(h, a), NodeInputs(h, b))
    decreases |a|
  {
    if |a| == 1 {
      assert |b| == 1;
      assert Padded(a) == [a[0]] && Padded(b) == [b[0]];
    } else {
      var a', b' := Next(h, a), Next(h, b);
      RootDeterminesPadding(h, a', b');
      if !Collision(h, NodeInputs(h, a), NodeInputs(h, b)) {
        PaddingFromParents(h, a, b);
      }
    }
  }

  lemma {:induction false} SameDepthBinding(h: HashFn, xs: seq<Bytes>, ys: seq<Bytes>)
    requires xs != [] && ys != [] && Depth(|xs|) == Depth(|ys|) && TreeRoot(h, xs) == TreeRoot(h, ys)
    ensures Padded(xs) == Padded(ys) || Collision(h, TreeInputs(h, xs), TreeInputs(h, ys))
  {
    var a, b := Leaves(h, xs), Leaves(h, ys);
    RootDeterminesPadding(h, a, b);
    if !Collision(h, TreeInputs(h, xs), TreeInputs(h, ys)) {
      forall k | 0 <= k < |Padded(xs)| ensures Padded(xs)[k] == Padded(ys)[k] {
        var i, j := PadIndex(|xs|, k), PadIndex(|ys|, k);
        assert Padded(a)[k] == h(LeafInput(xs[i])) && Padded(b)[k] == h(LeafInput(ys[j]));
        EqualHashes(h, LeafInput(xs[i]), LeafInput(ys[j]), TreeInputs(h, xs), TreeInputs(h, ys));
        LeafInputInjective(xs[i], ys[j]);
      }
    }
  }

  lemma {:induction false} UpperLayers(h: HashFn, layer: seq<Hash>, k: nat)
    requires |layer| > 0 && k <= Depth(|layer|)
    ensures Root(h, LayerAt(h, layer, k)) == Root(h, layer)
    ensures NodeInputs(h, LayerAt(h, layer, k)) <= NodeInputs(h, layer)
    decreases k
  {
    if k == 0 {
    } else {
      UpperLayers(h, Next(h, layer), k - 1);
    }
  }

  /** Trees of different depth never share a root: a leaf of one would be a node of the other. */
  lemma {:induction false} DifferentDepths(h: HashFn, xs: seq<Bytes>, ys: seq<Bytes>)
    requires xs != [] && ys != [] && Depth(|xs|) < Depth(|ys|) && TreeRoot(h, xs) == TreeRoot(h, ys)
    ensures Collision(h, TreeInputs(h, xs), TreeInputs(h, ys))
  {
    var a, b, k := Leaves(h, xs), Leaves(h, ys), Depth(|ys|) - Depth(|xs|);
    var upper := LayerAt(h, b, k);
    UpperLayers(h, b, k);
    RootDeterminesPadding(h, a, upper);
    if !Collision(h, NodeInputs(h, a), NodeInputs(h, upper)) {
      PadIndexInRange(|xs|, 0);
      PadIndexInRange(|upper|, 0);
      assert Padded(a)[0] == a[0] && Padded(upper)[0] == upper[0];
      assert HashLeaf(h, xs[0]) in upper;
      ShortPath(h, ys, xs[0], k - 1, TreeInputs(h, xs));
    }
  }

  lemma {:induction false} Pow2Injective(a: nat, b: nat)
    requires Pow2(a) == Pow2(b)
    ensures a == b
  {
    if a == 0 || b == 0 {
    } else {
      Pow2Injective(a - 1, b - 1);
    }
  }

  /** The root commits to exactly the padded item list: for all non-empty lists, equal padded lists
      have equal roots, and equal roots come from equal padded lists or exhibit a collision. */
  lemma {:induction false} RootCommitsToPaddedItems(h: HashFn, xs: seq<Bytes>, ys: seq<Bytes>)
    requires xs != [] && ys != []
    ensures Padded(xs) == Padded(ys) ==> TreeRoot(h, xs) == TreeRoot(h, ys)
    ensures TreeRoot(h, xs) == TreeRoot(h, ys) ==>
      || Padded(xs) == Padded(ys)
      || Collision(h, TreeInputs(h, xs), TreeInputs(h, ys))
      || Collision(h, TreeInputs(h, ys), TreeInputs(h, xs))
  {
    if Padded(xs) == Padded(ys) {
      assert |Padded(xs)| == |Padded(ys)|;
      Pow2Injective(Depth(|xs|), Depth(|ys|));
      var a, b := Leaves(h, xs), Leaves(h, ys);
      forall k | 0 <= k < |Padded(a)| ensures Padded(a)[k] == Padded(b)[k] {
        assert Padded(a)[k] == HashLeaf(h, Padded(xs)[k]);
        assert Padded(b)[k] == HashLeaf(h, Padded(ys)[k]);
      }
      PaddingDeterminesRoot(h, a, b);
    } else if TreeRoot(h, xs) == TreeRoot(h, ys) {
      if Depth(|xs|) == Depth(|ys|) {
        SameDepthBinding(h, xs, ys);
      } else if Depth(|xs|) < Depth(|ys|) {
        DifferentDepths(h, xs, ys);
      } else {
        DifferentDepths(h, ys, xs);
      }
    }
  }

  /** Lists of equal length with equal roots agree item by item, or collide. */
  lemma {:induction false} EqualLengthBinding(h: HashFn, xs: seq<Bytes>, ys: seq<Bytes>)
    requires |xs| == |ys| && TreeRoot(h, xs) == TreeRoot(h, ys)
    ensures xs == ys || Collision(h, TreeInputs(h, xs), TreeInputs(h, ys))
  {
    if xs == [] {
    } else {
      SameDepthBinding(h, xs, ys);
      if Padded(xs) == Padded(ys) {
        DepthIsCeilLog2(|xs|);
        forall k | 0 <= k < |xs| ensures xs[k] == ys[k] {
          PadIndexInRange(|xs|, k);
          assert Padded(xs)[k] == Padded(ys)[k];
        }
      }
    }
  }

  /** Lengths are not committed to: repeating the last item of an odd list keeps the root. */
  lemma {:induction false} DuplicatedTailKeepsRoot(h: HashFn, xs: seq<Bytes>)
    requires |xs| > 1 && |xs| % 2 == 1
    ensures TreeRoot(h, xs + [xs[|xs| - 1]]) == TreeRoot(h, xs)
  {
    var ys := xs + [xs[|xs| - 1]];
    assert Next(h, Leaves(h, ys)) == Next(h, Leaves(h, xs));
  }
}
