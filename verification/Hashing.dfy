/** BLAKE3 as an arbitrary function to 32 bytes.

    Every definition and theorem that hashes takes the hash function as a parameter, so nothing is
    assumed about it. Security statements have the form "equal, or here are two distinct inputs with
    the same hash", where the inputs come from the data at hand. */
module Hashing {
  import opened Bytes

  type Hash = b: Bytes | |b| == 32 witness Zeros(32)
  type HashFn = Bytes -> Hash

  const ZERO_HASH: Hash := Zeros(32)

  function LeafInput(data: Bytes): (b: Bytes) {
    [0] + data
  }

  function NodeInput(left: Hash, right: Hash): (b: Bytes)
    ensures |b| == 65
  {
    [1] + left + right
  }

  function HashLeaf(h: HashFn, data: Bytes): (r: Hash) {
    h(LeafInput(data))
  }

  function HashNode(h: HashFn, left: Hash, right: Hash): (r: Hash) {
    h(NodeInput(left, right))
  }

  /** What a chain hash is taken over: sequence, previous chain hash, content hash. */
  function LinkInput(sequence: nat, prev: Hash, content: Hash): (b: Bytes)
    ensures |b| == 72
  {
    U64(sequence) + prev + content
  }

  function ChainHash(h: HashFn, sequence: nat, prev: Hash, content: Hash): (r: Hash) {
    h(LinkInput(sequence, prev, content))
  }

  /** Leaves are hashed behind a byte 0, nodes behind a byte 1 with the left child first, and links with the
      sequence, the previous hash and the content hash in this order. */
  lemma {:induction false} InputLayouts(data: Bytes, l: Hash, r: Hash, sequence: nat)
    ensures LeafInput(data)[0] == 0 && LeafInput(data)[1..] == data
    ensures NodeInput(l, r)[0] == 1 && NodeInput(l, r)[1..33] == l && NodeInput(l, r)[33..] == r
    ensures FromLittleEndian(LinkInput(sequence, l, r)[..8]) == sequence % TWO_64
    ensures LinkInput(sequence, l, r)[8..40] == l && LinkInput(sequence, l, r)[40..] == r
  {
    assert LinkInput(sequence, l, r)[..8] == U64(sequence);
    U64RoundTrip(sequence);
  }

  /** Two distinct inputs, one from each set, with the same hash. */
  ghost predicate Collision(h: HashFn, xs: set<Bytes>, ys: set<Bytes>) {
    exists x, y :: x in xs && y in ys && x != y && h(x) == h(y)
  }

  lemma {:induction false} EqualHashes(h: HashFn, x: Bytes, y: Bytes, xs: set<Bytes>, ys: set<Bytes>)
    requires x in xs && y in ys && h(x) == h(y)
    ensures x == y || Collision(h, xs, ys)
  {
  }

  lemma {:induction false} NodeInputInjective(l: Hash, r: Hash, l': Hash, r': Hash)
    requires NodeInput(l, r) == NodeInput(l', r')
    ensures l == l' && r == r'
  {
    var a, b := NodeInput(l, r), NodeInput(l', r');
    assert l == a[1..33] == b[1..33] == l';
    assert r == a[33..] == b[33..] == r';
  }

  lemma {:induction false} LinkInputInjective(s: nat, p: Hash, c: Hash, s': nat, p': Hash, c': Hash)
    requires LinkInput(s, p, c) == LinkInput(s', p', c')
    ensures s % TWO_64 == s' % TWO_64 && p == p' && c == c'
  {
    var a, b := LinkInput(s, p, c), LinkInput(s', p', c');
    assert U64(s) == a[..8] == b[..8] == U64(s');
    U64RoundTrip(s);
    U64RoundTrip(s');
    assert p == a[8..40] == b[8..40] == p';
    assert c == a[40..] == b[40..] == c';
  }

  lemma {:induction false} LeafIsNotNode(data: Bytes, l: Hash, r: Hash)
    ensures LeafInput(data) != NodeInput(l, r)
  {
    assert LeafInput(data)[0] != NodeInput(l, r)[0];
  }

  lemma {:induction false} LeafInputInjective(a: Bytes, b: Bytes)
    requires LeafInput(a) == LeafInput(b)
    ensures a == b
  {
    assert a == LeafInput(a)[1..] == LeafInput(b)[1..] == b;
  }
}
