/** The hash chain over journal entries: verification of the whole chain and of ranges, and what a
    chain tip commits to. */
module Chain {
  import opened Bytes
  import opened Hashing
  import opened Entries
  import opened Parsing

  /** Chain hash that entry `i` must follow. */
  function Before(es: seq<JournalEntry>, i: nat, start: Hash): (r: Hash)
    requires i <= |es|
  {
    if i == 0 then start else es[i - 1].chainHash
  }

  /** Hash the next entry will be chained to. */
  function Tip(es: seq<JournalEntry>): (r: Hash) {
    Before(es, |es|, ZERO_HASH)
  }

  predicate SoundAt(k: Sealer, es: seq<JournalEntry>, i: nat, start: Hash)
    requires i < |es|
  {
    VerifyHashes(k, es[i]) && es[i].prevHash == Before(es, i, start)
  }

  predicate ChainValid(k: Sealer, es: seq<JournalEntry>, start: Hash) {
    forall i :: 0 <= i < |es| ==> SoundAt(k, es, i, start)
  }

  predicate FirstUnsound(k: Sealer, es: seq<JournalEntry>, i: nat, start: Hash) {
    i < |es| && !SoundAt(k, es, i, start) && forall j :: 0 <= j < i ==> SoundAt(k, es, j, start)
  }

  /** The error names the entry, and its hashes before its link. */
  predicate Complains(k: Sealer, e: JournalEntry, error: LedgerError) {
    if VerifyHashes(k, e) then error == LinkageBrokenAt(e.sequence) else error == HashBrokenAt(e.sequence)
  }

  /** Success exactly for a valid chain; otherwise the first unsound entry is named. */
  method VerifyFrom(k: Sealer, es: seq<JournalEntry>, start: Hash) returns (r: Result<Hash>)
    ensures r.Ok? <==> ChainValid(k, es, start)
    ensures r.Ok? ==> r.value == if es == [] then start else es[|es| - 1].chainHash
    ensures r.Err? ==> exists i: nat :: FirstUnsound(k, es, i, start) && Complains(k, es[i], r.error)
  {
    var prevHash := start;
    for i := 0 to |es|
      invariant prevHash == Before(es, i, start)
      invariant forall j :: 0 <= j < i ==> SoundAt(k, es, j, start)
    {
      if !VerifyHashes(k, es[i]) {
        assert FirstUnsound(k, es, i, start);
        return Err(HashBrokenAt(es[i].sequence));
      }
      if es[i].prevHash != prevHash {
        assert FirstUnsound(k, es, i, start);
        return Err(LinkageBrokenAt(es[i].sequence));
      }
      prevHash := es[i].chainHash;
    }
    r := Ok(prevHash);
  }

  // ---- Ranges ----

  function ScanBetween(rows: seq<JournalEntry>, lo: int, hi: int): (r: seq<JournalEntry>) {
    if rows == [] then []
    else
      var rest := ScanBetween(rows[..|rows| - 1], lo, hi);
      var last := rows[|rows| - 1];
      if lo <= last.sequence <= hi then rest + [last] else rest
  }

  /** Rows `from` to `to` of a table kept in sequence order; SQLite compares signed 64-bit values. */
  function ScanRange(rows: seq<JournalEntry>, from: nat, to: nat): (r: seq<JournalEntry>) {
    ScanBetween(rows, AsI64(from), AsI64(to))
  }

  /** Sequences run 1, 2, 3, ... without a gap. */
  predicate Dense(rows: seq<JournalEntry>) {
    forall i :: 0 <= i < |rows| ==> rows[i].sequence == i + 1
  }

  /** Rows of a gap-free table with sequences from `lo` to `hi`. */
  function Slice(rows: seq<JournalEntry>, lo: int, hi: int): (r: seq<JournalEntry>) {
    var start := if lo <= 1 then 0 else lo - 1;
    var end := if hi <= |rows| then hi else |rows|;
    if start < end then rows[start..end] else []
  }

  lemma {:induction false} DenseBetween(rows: seq<JournalEntry>, lo: int, hi: int)
    requires Dense(rows)
    ensures ScanBetween(rows, lo, hi) == Slice(rows, lo, hi)
  {
    if rows == [] {
    } else {
      var n := |rows| - 1;
      var front, start := rows[..n], if lo <= 1 then 0 else lo - 1;
      DenseBetween(front, lo, hi);
      assert rows[n].sequence == n + 1;
      if start <= n && n + 1 <= hi {
        assert Slice(front, lo, hi) == front[start..n];
        assert rows[start..n + 1] == front[start..n] + [rows[n]];
      } else if start < hi <= n {
        assert front[start..hi] == rows[start..hi];
      }
    }
  }

  /** When a range scan finds what its bounds say. SQLite gets the bounds as signed 64-bit values, so an
      upper bound from 2^63 on turns negative and so does a lower one. */
  predicate ScansRight(n: nat, from: nat, to: nat) {
    n == 0 || (if to < TWO_63 then from < TWO_63 || to == 0 else from > n || from > to)
  }

  /** For all bounds a u64 can hold: a range scan of a gap-free table returns the rows with sequences between
      the bounds exactly when `ScansRight` holds. */
  lemma {:induction false} RangeScanIsExact(rows: seq<JournalEntry>, from: nat, to: nat)
    requires Dense(rows) && from < TWO_64 && to < TWO_64
    ensures ScanRange(rows, from, to) == ScanBetween(rows, from, to) <==> ScansRight(|rows|, from, to)
  {
    AsI64Small(from);
    AsI64Small(to);
    DenseBetween(rows, from, to);
    DenseBetween(rows, AsI64(from), AsI64(to));
    if to < TWO_63 {
      if from >= TWO_63 {
        assert Slice(rows, from, to) == [];
        assert |Slice(rows, AsI64(from), to)| == if to <= |rows| then to else |rows|;
      }
    } else {
      assert Slice(rows, AsI64(from), AsI64(to)) == [];
      assert Slice(rows, from, to) == [] <==> |rows| == 0 || from > |rows| || from > to;
    }
  }

  function FirstPrev(es: seq<JournalEntry>): (r: Hash) {
    if es == [] then ZERO_HASH else es[0].prevHash
  }

  /** A range is checked against its own first link, so it says nothing about what came before. */
  method VerifyRange(k: Sealer, rows: seq<JournalEntry>, from: Option<nat>, to: Option<nat>)
    returns (r: Result<(nat, Hash)>)
    ensures
      var es := ScanRange(rows, if from.Some? then from.value else 1, if to.Some? then to.value else TWO_64 - 1);
      && (r.Ok? <==> ChainValid(k, es, FirstPrev(es)))
      && (r.Ok? ==> r.value == (|es|, Tip(es)))
      && (r.Err? ==> exists i: nat :: FirstUnsound(k, es, i, FirstPrev(es)) && Complains(k, es[i], r.error))
  {
    var start := if from.Some? then from.value else 1;
    var end := if to.Some? then to.value else TWO_64 - 1;
    var es := ScanRange(rows, start, end);
    if es == [] {
      return Ok((0, ZERO_HASH));
    }
    var checked := VerifyFrom(k, es, es[0].prevHash);
    r := if checked.Ok? then Ok((|es|, checked.value)) else Err(checked.error);
  }

  lemma {:induction false} NothingBelowZero(rows: seq<JournalEntry>, lo: int, hi: int)
    requires hi < 0
    ensures ScanBetween(rows, lo, hi) == []
  {
    if rows == [] {
    } else {
      NothingBelowZero(rows[..|rows| - 1], lo, hi);
    }
  }

  /** An upper bound from 2^63 on, and in particular a missing one, inspects no entry of any table: the check
      accepts it, valid or not, with count zero. */
  lemma {:induction false} OpenEndedRangeIsVacuous(k: Sealer, rows: seq<JournalEntry>, from: nat, to: nat)
    requires TWO_63 <= to < TWO_64
    ensures ScanRange(rows, from, to) == [] && ChainValid(k, ScanRange(rows, from, to), FirstPrev([]))
  {
    AsI64Small(to);
    NothingBelowZero(rows, AsI64(from), AsI64(to));
  }

  lemma {:induction false} SplitChain(k: Sealer, rows: seq<JournalEntry>, m: nat)
    requires 1 <= m < |rows|
    ensures ChainValid(k, rows, ZERO_HASH) <==>
      && ChainValid(k, rows[..m], FirstPrev(rows)) && ChainValid(k, rows[m..], rows[m].prevHash)
      && rows[m].prevHash == rows[m - 1].chainHash && FirstPrev(rows) == ZERO_HASH
  {
    var left, right := rows[..m], rows[m..];
    if ChainValid(k, rows, ZERO_HASH) {
      assert SoundAt(k, rows, 0, ZERO_HASH) && SoundAt(k, rows, m, ZERO_HASH);
      forall i | 0 <= i < |left| ensures SoundAt(k, left, i, FirstPrev(rows)) {
        assert SoundAt(k, rows, i, ZERO_HASH);
      }
      forall i | 0 <= i < |right| ensures SoundAt(k, right, i, rows[m].prevHash) {
        assert SoundAt(k, rows, m + i, ZERO_HASH);
      }
    } else if ChainValid(k, left, FirstPrev(rows)) && ChainValid(k, right, rows[m].prevHash)
           && rows[m].prevHash == rows[m - 1].chainHash && FirstPrev(rows) == ZERO_HASH {
      forall i | 0 <= i < |rows| ensures SoundAt(k, rows, i, ZERO_HASH) {
        if i < m {
          assert SoundAt(k, left, i, FirstPrev(rows));
        } else {
          assert SoundAt(k, right, i - m, rows[m].prevHash);
        }
      }
    }
  }

  lemma {:induction false} SmallRange(rows: seq<JournalEntry>, from: nat, to: nat)
    requires Dense(rows) && from < TWO_63 && to < TWO_63
    ensures ScanRange(rows, from, to) == Slice(rows, from, to)
  {
    AsI64Small(from);
    AsI64Small(to);
    DenseBetween(rows, from, to);
  }

  lemma {:induction false} TwoRanges(rows: seq<JournalEntry>, m: nat)
    requires Dense(rows) && 1 <= m < |rows| < TWO_63
    ensures ScanRange(rows, 1, m) == rows[..m] && ScanRange(rows, m + 1, |rows|) == rows[m..]
    ensures FirstPrev(rows[..m]) == FirstPrev(rows) && Tip(rows[..m]) == rows[m - 1].chainHash
  {
    SmallRange(rows, 1, m);
    SmallRange(rows, m + 1, |rows|);
    assert rows[..|rows|] == rows;
    assert rows[..m][0] == rows[0] && rows[..m][m - 1] == rows[m - 1];
  }

  /** With explicit bounds, checking the whole chain is checking two adjacent ranges, the link
      between them, and the zero start. */
  lemma {:induction false} WholeChainIsTwoRanges(k: Sealer, rows: seq<JournalEntry>, m: nat)
    requires Dense(rows) && 1 <= m < |rows| < TWO_63
    ensures
      var left, right := ScanRange(rows, 1, m), ScanRange(rows, m + 1, |rows|);
      ChainValid(k, rows, ZERO_HASH) <==>
        && ChainValid(k, left, FirstPrev(left)) && ChainValid(k, right, FirstPrev(right))
        && FirstPrev(right) == Tip(left) && FirstPrev(rows) == ZERO_HASH
  {
    TwoRanges(rows, m);
    SplitChain(k, rows, m);
  }

  lemma {:induction false} ChainGrows(k: Sealer, es: seq<JournalEntry>, e: JournalEntry)
    requires ChainValid(k, es, ZERO_HASH)
    ensures ChainValid(k, es + [e], ZERO_HASH) <==> VerifyHashes(k, e) && e.prevHash == Tip(es)
  {
    forall i | 0 <= i < |es| ensures SoundAt(k, es + [e], i, ZERO_HASH) {
      assert SoundAt(k, es, i, ZERO_HASH);
    }
    assert SoundAt(k, es + [e], |es|, ZERO_HASH) <==> VerifyHashes(k, e) && e.prevHash == Tip(es);
  }

  // ---- The tip commits to the history ----

  ghost function EntryInputs(k: Sealer, e: JournalEntry): (r: set<Bytes>) {
    {k.encode(e), LinkInput(e.sequence, e.prevHash, e.contentHash)}
  }

  /** Everything hashed to produce a chain. */
  ghost function ChainInputs(k: Sealer, es: seq<JournalEntry>): (r: set<Bytes>) {
    if es == [] then {} else ChainInputs(k, es[..|es| - 1]) + EntryInputs(k, es[|es| - 1])
  }

  ghost predicate ZeroPreimage(h: HashFn, xs: set<Bytes>) {
    exists x :: x in xs && h(x) == ZERO_HASH
  }

  /** The same content, entry by entry, under the same hashes. */
  predicate SameHistory(k: Sealer, a: seq<JournalEntry>, b: seq<JournalEntry>) {
    |a| == |b| && forall i :: 0 <= i < |a| ==>
      && k.encode(a[i]) == k.encode(b[i])
      && a[i].contentHash == b[i].contentHash && a[i].prevHash == b[i].prevHash
      && a[i].chainHash == b[i].chainHash
  }

  ghost predicate HashBroken(h: HashFn, xs: set<Bytes>, ys: set<Bytes>) {
    Collision(h, xs, ys) || ZeroPreimage(h, xs) || ZeroPreimage(h, ys)
  }

  lemma {:induction false} HashBrokenMonotone(
    h: HashFn, xs: set<Bytes>, ys: set<Bytes>, xs': set<Bytes>, ys': set<Bytes>)
    requires HashBroken(h, xs, ys) && xs <= xs' && ys <= ys'
    ensures HashBroken(h, xs', ys')
  {
  }

  /** Two verified entries with one chain hash agree, or collide. */
  lemma {:induction false} EntriesAgree(k: Sealer, x: JournalEntry, y: JournalEntry)
    requires VerifyHashes(k, x) && VerifyHashes(k, y) && x.chainHash == y.chainHash
    ensures
      || Collision(k.hash, EntryInputs(k, x), EntryInputs(k, y))
      || (x.prevHash == y.prevHash && x.contentHash == y.contentHash && k.encode(x) == k.encode(y))
  {
    var lx, ly := LinkInput(x.sequence, x.prevHash, x.contentHash), LinkInput(y.sequence, y.prevHash, y.contentHash);
    if lx == ly {
      LinkInputInjective(x.sequence, x.prevHash, x.contentHash, y.sequence, y.prevHash, y.contentHash);
      EqualHashes(k.hash, k.encode(x), k.encode(y), EntryInputs(k, x), EntryInputs(k, y));
    } else {
      EqualHashes(k.hash, lx, ly, EntryInputs(k, x), EntryInputs(k, y));
    }
  }

  lemma {:induction false} DropLast(k: Sealer, es: seq<JournalEntry>)
    requires es != [] && ChainValid(k, es, ZERO_HASH)
    ensures ChainValid(k, es[..|es| - 1], ZERO_HASH)
    ensures VerifyHashes(k, es[|es| - 1]) && es[|es| - 1].prevHash == Tip(es[..|es| - 1])
  {
    assert SoundAt(k, es, |es| - 1, ZERO_HASH);
    var front := es[..|es| - 1];
    forall i | 0 <= i < |front| ensures SoundAt(k, front, i, ZERO_HASH) {
      assert SoundAt(k, es, i, ZERO_HASH);
    }
  }

  lemma {:induction false} ZeroTipNeedsPreimage(k: Sealer, es: seq<JournalEntry>)
    requires es != [] && ChainValid(k, es, ZERO_HASH) && Tip(es) == ZERO_HASH
    ensures ZeroPreimage(k.hash, ChainInputs(k, es))
  {
    DropLast(k, es);
    var e := es[|es| - 1];
    assert LinkInput(e.sequence, e.prevHash, e.contentHash) in ChainInputs(k, es);
  }

  lemma {:induction false} SameHistoryGrows(k: Sealer, a: seq<JournalEntry>, b: seq<JournalEntry>)
    requires a != [] && b != [] && SameHistory(k, a[..|a| - 1], b[..|b| - 1])
    requires
      var x, y := a[|a| - 1], b[|b| - 1];
      && k.encode(x) == k.encode(y) && x.contentHash == y.contentHash
      && x.prevHash == y.prevHash && x.chainHash == y.chainHash
    ensures SameHistory(k, a, b)
  {
    var a', b' := a[..|a| - 1], b[..|b| - 1];
    assert forall i :: 0 <= i < |a'| ==> a'[i] == a[i] && b'[i] == b[i];
  }

  /** Two verified chains, of any lengths, with one tip hold the same history, or a collision or a
      preimage of the zero hash is at hand among the inputs that were hashed. */
  lemma {:induction false} TipBindsHistory(k: Sealer, a: seq<JournalEntry>, b: seq<JournalEntry>)
    requires ChainValid(k, a, ZERO_HASH) && ChainValid(k, b, ZERO_HASH) && Tip(a) == Tip(b)
    ensures SameHistory(k, a, b) || HashBroken(k.hash, ChainInputs(k, a), ChainInputs(k, b))
    decreases |a|, 1
  {
    if a == [] && b == [] {
    } else if a == [] {
      ZeroTipNeedsPreimage(k, b);
    } else if b == [] {
      ZeroTipNeedsPreimage(k, a);
    } else {
      LastEntriesBind(k, a, b);
    }
  }

  lemma {:induction false} LastEntriesBind(k: Sealer, a: seq<JournalEntry>, b: seq<JournalEntry>)
    requires a != [] && b != []
    requires ChainValid(k, a, ZERO_HASH) && ChainValid(k, b, ZERO_HASH) && Tip(a) == Tip(b)
    ensures SameHistory(k, a, b) || HashBroken(k.hash, ChainInputs(k, a), ChainInputs(k, b))
    decreases |a|, 0
  {
    DropLast(k, a);
    DropLast(k, b);
    var a', b', x, y := a[..|a| - 1], b[..|b| - 1], a[|a| - 1], b[|b| - 1];
    EntriesAgree(k, x, y);
    if x.prevHash == y.prevHash && x.contentHash == y.contentHash && k.encode(x) == k.encode(y) {
      TipBindsHistory(k, a', b');
      if HashBroken(k.hash, ChainInputs(k, a'), ChainInputs(k, b')) {
        HashBrokenMonotone(k.hash, ChainInputs(k, a'), ChainInputs(k, b'), ChainInputs(k, a), ChainInputs(k, b));
      } else {
        SameHistoryGrows(k, a, b);
      }
    } else {
      HashBrokenMonotone(k.hash, EntryInputs(k, x), EntryInputs(k, y), ChainInputs(k, a), ChainInputs(k, b));
    }
  }

  /** For entries the encoding represents faithfully, the tip determines every field. */
  lemma {:induction false} TipDeterminesEntries(h: HashFn, a: seq<JournalEntry>, b: seq<JournalEntry>)
    requires ChainValid(CanonicalSealer(h), a, ZERO_HASH) && ChainValid(CanonicalSealer(h), b, ZERO_HASH)
    requires Tip(a) == Tip(b)
    requires forall i :: 0 <= i < |a| ==> Representable(a[i])
    requires forall i :: 0 <= i < |b| ==> Representable(b[i])
    ensures a == b || HashBroken(h, ChainInputs(CanonicalSealer(h), a), ChainInputs(CanonicalSealer(h), b))
  {
    TipBindsHistory(CanonicalSealer(h), a, b);
    if SameHistory(CanonicalSealer(h), a, b) {
      forall i | 0 <= i < |a| ensures a[i] == b[i] {
        CanonicalIsInjective(a[i], b[i]);
        assert WithHashes(Hashed(a[i]), a[i].contentHash, a[i].prevHash, a[i].chainHash) == a[i];
        assert WithHashes(Hashed(b[i]), b[i].contentHash, b[i].prevHash, b[i].chainHash) == b[i];
      }
    }
  }
}
