/** A parser for the canonical encoding, and what follows from its existence: the encoding is
    injective and prefix-free on the hashed fields. */
module Parsing {
  import opened Bytes
  import opened Hashing
  import opened Entries

  /** A parse consumes a prefix and leaves the rest. */
  datatype Parsed<+T> = Bad | Good(value: T, rest: Bytes)
  {
    predicate IsFailure() { Bad? }
    function PropagateFailure<U>(): (r: Parsed<U>)
      requires Bad?
    {
      Bad
    }
    function Extract(): (r: (T, Bytes))
      requires Good?
    {
      (value, rest)
    }
  }

  function Take(b: Bytes, n: nat): (r: Parsed<Bytes>) {
    if |b| < n then Bad else Good(b[..n], b[n..])
  }

  lemma {:induction false} TakeBack(x: Bytes, rest: Bytes)
    ensures Take(x + rest, |x|) == Good(x, rest)
  {
    assert (x + rest)[..|x|] == x && (x + rest)[|x|..] == rest;
  }

  function ReadLength(b: Bytes): (r: Parsed<nat>) {
    var (d, r) :- Take(b, 4);
    Good(FromLittleEndian(d), r)
  }

  lemma {:induction false} ReadLengthBack(n: nat, rest: Bytes)
    requires n < TWO_32
    ensures ReadLength(U32(n) + rest) == Good(n, rest)
  {
    TakeBack(U32(n), rest);
    U32RoundTrip(n);
  }

  lemma {:induction false} Concat3(a: Bytes, b: Bytes, c: Bytes)
    ensures (a + b) + c == a + (b + c)
  {
  }

  function ReadBytes(b: Bytes): (r: Parsed<Bytes>) {
    var (n, r) :- ReadLength(b);
    Take(r, n)
  }

  lemma {:induction false} ReadBytesBack(d: Bytes, rest: Bytes)
    requires |d| < TWO_32
    ensures ReadBytes(WriteBytes(d) + rest) == Good(d, rest)
  {
    Concat3(U32(|d|), d, rest);
    ReadLengthBack(|d|, d + rest);
    TakeBack(d, rest);
  }

  function ReadOptional(b: Bytes): (r: Parsed<Option<Bytes>>) {
    var (n, r) :- ReadLength(b);
    if n == ABSENT then Good(None, r)
    else
      var (d, r') :- Take(r, n);
      Good(Some(d), r')
  }

  predicate ShortOptional(d: Option<Bytes>) {
    d.Some? ==> |d.value| < ABSENT
  }

  lemma {:induction false} ReadOptionalBack(d: Option<Bytes>, rest: Bytes)
    requires ShortOptional(d)
    ensures ReadOptional(WriteOptional(d) + rest) == Good(d, rest)
  {
    if d.Some? {
      Concat3(U32(|d.value|), d.value, rest);
      ReadLengthBack(|d.value|, d.value + rest);
      TakeBack(d.value, rest);
    } else {
      ReadLengthBack(ABSENT, rest);
    }
  }

  function ReadReference(b: Bytes): (r: Parsed<Option<Uuid>>) {
    var (d, r) :- Take(b, 17);
    Good(if d[16] == 1 then Some(d[..16]) else None, r)
  }

  lemma {:induction false} ReadReferenceBack(id: Option<Uuid>, rest: Bytes)
    ensures ReadReference(WriteReference(id) + rest) == Good(id, rest)
  {
    TakeBack(WriteReference(id), rest);
    if id.Some? {
      assert WriteReference(id)[..16] == id.value;
    }
  }

  function StatusOf(b: Byte): (r: EntryStatus) {
    if b == 0 then Posted else if b == 1 then Reversed else if b == 2 then Reversal
    else if b == 3 then PendingApproval else if b == 4 then Rejected else if b == 5 then Pending
    else if b == 6 then Settled else Failed
  }

  datatype Header = Header(id: Uuid, sequence: nat, status: EntryStatus, effectiveAt: Time, postedAt: Time)

  function ReadHeader(b: Bytes): (r: Parsed<Header>) {
    var (d, r) :- Take(b, 42);
    if d[0] != 1 then Bad else Good(HeaderOf(d), r)
  }

  function HeaderOf(d: Bytes): (r: Header)
    requires |d| == 42
  {
    Header(d[1..17], FromLittleEndian(d[17..25]), StatusOf(d[25]), FromI64(d[26..34]), FromI64(d[34..42]))
  }

  lemma {:induction false} HeaderSlices(id: Uuid, sequence: Bytes, status: Byte, effective: Bytes, posted: Bytes)
    requires |sequence| == |effective| == |posted| == 8
    ensures
      var d := [1] + id + sequence + [status] + effective + posted;
      && d[1..17] == id && d[17..25] == sequence && d[25] == status && d[26..34] == effective && d[34..42] == posted
  {
    var a := [1] + id;
    var b := a + sequence;
    var c := b + [status];
    var f := c + effective;
    var d := f + posted;
    assert d[..34] == f && d[34..42] == posted;
    assert f[..26] == c && f[26..34] == effective && d[26..34] == f[26..34];
    assert c[..25] == b && c[25] == status && d[25] == c[25];
    assert b[..17] == a && b[17..25] == sequence && d[17..25] == b[17..25];
    assert a[1..17] == id && d[1..17] == a[1..17];
  }

  lemma {:induction false} HeaderOfBack(e: JournalEntry)
    requires e.sequence < TWO_64
    ensures HeaderOf(HeaderBytes(e))
         == Header(e.id, e.sequence, e.status, Nanos(e.effectiveAt), Nanos(e.postedAt))
  {
    HeaderSlices(e.id, U64(e.sequence), StatusByte(e.status), I64(Nanos(e.effectiveAt)), I64(Nanos(e.postedAt)));
    U64RoundTrip(e.sequence);
    I64RoundTrip(Nanos(e.effectiveAt));
    I64RoundTrip(Nanos(e.postedAt));
  }

  lemma {:induction false} ReadHeaderBack(e: JournalEntry, rest: Bytes)
    requires e.sequence < TWO_64
    ensures ReadHeader(HeaderBytes(e) + rest)
         == Good(Header(e.id, e.sequence, e.status, Nanos(e.effectiveAt), Nanos(e.postedAt)), rest)
  {
    TakeBack(HeaderBytes(e), rest);
    HeaderOfBack(e);
  }

  datatype Texts = Texts(description: Str, domain: Str, externalRef: Option<Str>, idempotencyKey: Option<Str>)

  function ReadTexts(b: Bytes): (r: Parsed<Texts>) {
    var (description, r1) :- ReadBytes(b);
    var (domain, r2) :- ReadBytes(r1);
    var (externalRef, r3) :- ReadOptional(r2);
    var (idempotencyKey, r4) :- ReadOptional(r3);
    Good(Texts(description, domain, externalRef, idempotencyKey), r4)
  }

  lemma {:induction false} ReadTextsBack(e: JournalEntry, rest: Bytes)
    requires |e.description| < TWO_32 && |e.domain| < TWO_32
    requires ShortOptional(e.externalRef) && ShortOptional(e.idempotencyKey)
    ensures ReadTexts(TextBytes(e) + rest)
         == Good(Texts(e.description, e.domain, e.externalRef, e.idempotencyKey), rest)
  {
    var t4 := WriteOptional(e.idempotencyKey) + rest;
    var t3 := WriteOptional(e.externalRef) + t4;
    var t2 := WriteBytes(e.domain) + t3;
    assert TextBytes(e) + rest == WriteBytes(e.description) + t2;
    ReadBytesBack(e.description, t2);
    ReadBytesBack(e.domain, t3);
    ReadOptionalBack(e.externalRef, t4);
    ReadOptionalBack(e.idempotencyKey, rest);
  }

  function ReadReferences(b: Bytes): (r: Parsed<(Option<Uuid>, Option<Uuid>)>) {
    var (x, r1) :- ReadReference(b);
    var (y, r2) :- ReadReference(r1);
    Good((x, y), r2)
  }

  lemma {:induction false} ReadReferencesBack(e: JournalEntry, rest: Bytes)
    ensures ReadReferences(ReferenceBytes(e) + rest) == Good((e.reversesEntryId, e.reversedByEntryId), rest)
  {
    assert ReferenceBytes(e) + rest
        == WriteReference(e.reversesEntryId) + (WriteReference(e.reversedByEntryId) + rest);
    ReadReferenceBack(e.reversesEntryId, WriteReference(e.reversedByEntryId) + rest);
    ReadReferenceBack(e.reversedByEntryId, rest);
  }

  function ReadExtras(b: Bytes): (r: Parsed<(Option<Str>, Option<Str>)>) {
    var (x, r1) :- ReadOptional(b);
    var (y, r2) :- ReadOptional(r1);
    Good((x, y), r2)
  }

  lemma {:induction false} ReadExtrasBack(e: JournalEntry, rest: Bytes)
    requires ShortOptional(e.approvedBy) && ShortOptional(e.metadata)
    ensures ReadExtras(ExtraBytes(e) + rest) == Good((e.approvedBy, e.metadata), rest)
  {
    assert ExtraBytes(e) + rest == WriteOptional(e.approvedBy) + (WriteOptional(e.metadata) + rest);
    ReadOptionalBack(e.approvedBy, WriteOptional(e.metadata) + rest);
    ReadOptionalBack(e.metadata, rest);
  }

  function ReadLine(b: Bytes): (r: Parsed<JournalLine>) {
    var (d, r) :- Take(b, 41);
    var amount := FromI64(d[32..40]);
    if !FitsI64(amount) then Bad
    else
      var (currencyCode, r') :- ReadBytes(r);
      var (memo, r'') :- ReadOptional(r');
      Good(JournalLine(d[..16], d[16..32], currencyCode, amount, if d[40] == 0 then Debit else Credit, memo), r'')
  }

  predicate RepresentableLine(l: JournalLine) {
    |l.currencyCode| < TWO_32 && ShortOptional(l.memo)
  }

  lemma {:induction false} ReadLineBack(l: JournalLine, rest: Bytes)
    requires RepresentableLine(l)
    ensures ReadLine(LineBytes(l) + rest) == Good(l, rest)
  {
    var t3 := WriteOptional(l.memo) + rest;
    var t2 := WriteBytes(l.currencyCode) + t3;
    assert LineBytes(l) + rest == LineHeaderBytes(l) + t2;
    TakeBack(LineHeaderBytes(l), t2);
    var d := LineHeaderBytes(l);
    assert d[..16] == l.id;
    assert d[16..32] == l.accountId;
    assert d[32..40] == I64(l.amount);
    I64RoundTrip(l.amount);
    ReadBytesBack(l.currencyCode, t3);
    ReadOptionalBack(l.memo, rest);
  }

  function ReadLines(b: Bytes, n: nat): (r: Parsed<seq<JournalLine>>) {
    if n == 0 then Good([], b)
    else
      var (l, r) :- ReadLine(b);
      var (ls, r') :- ReadLines(r, n - 1);
      Good([l] + ls, r')
  }

  lemma {:induction false} ReadLinesBack(lines: seq<JournalLine>, rest: Bytes)
    requires forall i :: 0 <= i < |lines| ==> RepresentableLine(lines[i])
    ensures ReadLines(LinesBytes(lines) + rest, |lines|) == Good(lines, rest)
  {
    if lines == [] {
      assert LinesBytes(lines) + rest == rest;
    } else {
      var rest' := LinesBytes(lines[1..]) + rest;
      assert LinesBytes(lines) + rest == LineBytes(lines[0]) + rest';
      ReadLineBack(lines[0], rest');
      ReadLinesBack(lines[1..], rest);
      assert lines == [lines[0]] + lines[1..];
    }
  }

  function ReadTail(b: Bytes): (r: Parsed<seq<JournalLine>>) {
    var (n, r) :- ReadLength(b);
    ReadLines(r, n)
  }

  lemma {:induction false} ReadTailBack(e: JournalEntry, rest: Bytes)
    requires |e.lines| < TWO_32
    requires forall i :: 0 <= i < |e.lines| ==> RepresentableLine(e.lines[i])
    ensures ReadTail(TailBytes(e) + rest) == Good(e.lines, rest)
  {
    Concat3(U32(|e.lines|), LinesBytes(e.lines), rest);
    ReadLengthBack(|e.lines|, LinesBytes(e.lines) + rest);
    ReadLinesBack(e.lines, rest);
  }

  /** Reads one canonical entry; the hash fields come back as zero. */
  function ReadEntry(b: Bytes): (r: Parsed<JournalEntry>) {
    var (hd, r1) :- ReadHeader(b);
    var (tx, r2) :- ReadTexts(r1);
    var (rf, r3) :- ReadReferences(r2);
    var (ex, r4) :- ReadExtras(r3);
    var (lines, r5) :- ReadTail(r4);
    Good(JournalEntry(hd.id, hd.sequence, hd.status, tx.description, lines, hd.effectiveAt, hd.postedAt,
                      tx.externalRef, tx.idempotencyKey, rf.0, rf.1, tx.domain,
                      ZERO_HASH, ZERO_HASH, ZERO_HASH, ex.0, ex.1), r5)
  }

  /** The fields that are hashed. */
  function Hashed(e: JournalEntry): (r: JournalEntry) {
    WithHashes(e, ZERO_HASH, ZERO_HASH, ZERO_HASH)
  }

  /** Lengths the encoding does not truncate. */
  predicate Sized(e: JournalEntry) {
    && e.sequence < TWO_64
    && |e.description| < TWO_32 && |e.domain| < TWO_32
    && ShortOptional(e.externalRef) && ShortOptional(e.idempotencyKey)
    && ShortOptional(e.approvedBy) && ShortOptional(e.metadata)
    && |e.lines| < TWO_32
    && forall i :: 0 <= i < |e.lines| ==> RepresentableLine(e.lines[i])
  }

  /** And instants it does not replace by zero. */
  predicate Representable(e: JournalEntry) {
    Sized(e) && FitsI64(e.effectiveAt) && FitsI64(e.postedAt)
  }

  /** The parser recovers every hashed field and stops exactly at the end of the entry. */
  lemma {:induction false} ReadEntryBack(e: JournalEntry, rest: Bytes)
    requires Representable(e)
    ensures ReadEntry(Canonical(e) + rest) == Good(Hashed(e), rest)
  {
    var t5 := TailBytes(e) + rest;
    var t4 := ExtraBytes(e) + t5;
    var t3 := ReferenceBytes(e) + t4;
    var t2 := TextBytes(e) + t3;
    SpreadOver(HeaderBytes(e), TextBytes(e), ReferenceBytes(e), ExtraBytes(e), TailBytes(e), rest);
    ReadHeaderBack(e, t2);
    ReadTextsBack(e, t3);
    ReadReferencesBack(e, t4);
    ReadExtrasBack(e, t5);
    ReadTailBack(e, rest);
  }

  lemma {:induction false} SpreadOver(a: Bytes, b: Bytes, c: Bytes, d: Bytes, e: Bytes, rest: Bytes)
    ensures a + (b + (c + (d + e))) + rest == a + (b + (c + (d + (e + rest))))
  {
  }

  /** No canonical encoding is a prefix of another, and equal encodings mean equal hashed fields. */
  lemma {:induction false} CanonicalIsPrefixFree(a: JournalEntry, b: JournalEntry, restA: Bytes, restB: Bytes)
    requires Representable(a) && Representable(b)
    requires Canonical(a) + restA == Canonical(b) + restB
    ensures Hashed(a) == Hashed(b) && restA == restB
  {
    ReadEntryBack(a, restA);
    ReadEntryBack(b, restB);
  }

  lemma {:induction false} CanonicalIsInjective(a: JournalEntry, b: JournalEntry)
    requires Representable(a) && Representable(b)
    ensures Canonical(a) == Canonical(b) <==> Hashed(a) == Hashed(b)
  {
    assert Canonical(Hashed(a)) == Canonical(a) && Canonical(Hashed(b)) == Canonical(b);
    if Canonical(a) == Canonical(b) {
      CanonicalIsPrefixFree(a, b, [], []);
    }
  }

  /** The entry with both instants as the encoding writes them: zero when out of the i64 range. */
  function Clipped(e: JournalEntry): (r: JournalEntry) {
    e.(effectiveAt := Nanos(e.effectiveAt), postedAt := Nanos(e.postedAt))
  }

  /** Without the bound on instants: encodings are equal exactly when the hashed fields are, with each of the
      two times replaced by what is written for it. */
  lemma {:induction false} CanonicalUpToTimes(a: JournalEntry, b: JournalEntry)
    requires Sized(a) && Sized(b)
    ensures Canonical(a) == Canonical(b) <==> Hashed(Clipped(a)) == Hashed(Clipped(b))
  {
    assert Canonical(a) == Canonical(Clipped(a)) && Canonical(b) == Canonical(Clipped(b));
    CanonicalIsInjective(Clipped(a), Clipped(b));
  }

  predicate SameInstant(t: Time, t': Time) {
    t == t' || ((t == 0 || !FitsI64(t)) && (t' == 0 || !FitsI64(t')))
  }

  /** So two pairs of times are confused exactly when, one by one, they agree or each is zero or out of range. */
  lemma {:induction false} TimeAliasing(e: JournalEntry, effective: Time, posted: Time, effective': Time, posted': Time)
    requires Sized(e)
    ensures
      var a, b := e.(effectiveAt := effective, postedAt := posted), e.(effectiveAt := effective', postedAt := posted');
      Canonical(a) == Canonical(b) <==> SameInstant(effective, effective') && SameInstant(posted, posted')
  {
    var a, b := e.(effectiveAt := effective, postedAt := posted), e.(effectiveAt := effective', postedAt := posted');
    CanonicalUpToTimes(a, b);
    var x, y := Hashed(Clipped(a)), Hashed(Clipped(b));
    assert x == y <==> x.effectiveAt == y.effectiveAt && x.postedAt == y.postedAt;
  }

  // ---- The layout, written out ----

  /** A text behind its length in four bytes; an absent one is four bytes 255. */
  function Framed(d: Option<Str>): (r: Bytes) {
    if d.None? then [255, 255, 255, 255] else Unsigned(|d.value|, 4) + d.value
  }

  /** Sixteen bytes and a byte 1; an absent reference is seventeen zeros. */
  function Referred(id: Option<Uuid>): (r: Bytes) {
    if id.None? then seq(17, _ => 0) else id.value + [1]
  }

  lemma {:induction false} AbsentBytes()
    ensures U32(ABSENT) == [255, 255, 255, 255]
  {
    var b := U32(ABSENT);
    assert Pow256(1) == 256 && Pow256(2) == 65536 && Pow256(3) == 256 * Pow256(2);
    assert b[0] == 255 && b[1] == 255 && b[2] == 255 && b[3] == 255;
  }

  lemma {:induction false} FramedIs(d: Option<Str>)
    ensures WriteOptional(d) == Framed(d)
  {
    AbsentBytes();
  }

  lemma {:induction false} ReferredIs(id: Option<Uuid>)
    ensures WriteReference(id) == Referred(id)
  {
  }

  /** The fixed part: version 1, id, sequence, status by its place in the enumeration, and the two times. */
  lemma {:induction false} HeaderLayout(e: JournalEntry)
    ensures
      var b := HeaderBytes(e);
      && b[0] == 1 && b[1..17] == e.id && FromLittleEndian(b[17..25]) == e.sequence % TWO_64
      && EnumOrder(e.status, b[25])
      && FromI64(b[26..34]) == Nanos(e.effectiveAt) && FromI64(b[34..42]) == Nanos(e.postedAt)
  {
    var b := HeaderBytes(e);
    assert b[17..25] == U64(e.sequence) && b[25] == StatusByte(e.status);
    assert b[26..34] == I64(Nanos(e.effectiveAt)) && b[34..42] == I64(Nanos(e.postedAt));
    U64RoundTrip(e.sequence);
    I64RoundTrip(Nanos(e.effectiveAt));
    I64RoundTrip(Nanos(e.postedAt));
  }

  /** The status stands at place `n`, counted from zero, of the source's enumeration. */
  predicate EnumOrder(s: EntryStatus, n: nat) {
    n < 8 && [Posted, Reversed, Reversal, PendingApproval, Rejected, Pending, Settled, Failed][n] == s
  }

  lemma {:induction false} LineLayout(l: JournalLine)
    ensures
      var b := LineBytes(l);
      && |b| >= 41 && b[..16] == l.id && b[16..32] == l.accountId && FromI64(b[32..40]) == l.amount
      && b[40] == (if l.drCr == Debit then 0 else 1)
      && b[41..] == Framed(Some(l.currencyCode)) + Framed(l.memo)
  {
    var b, head := LineBytes(l), LineHeaderBytes(l);
    assert b[..41] == head && b[41..] == WriteBytes(l.currencyCode) + WriteOptional(l.memo);
    assert b[..16] == head[..16] && b[16..32] == head[16..32] && b[32..40] == head[32..40] == I64(l.amount);
    I64RoundTrip(l.amount);
    FramedIs(l.memo);
  }

  /** The canonical bytes, field by field: the header, then the texts and references in this order, then the number
      of lines and the lines. */
  lemma {:induction false} CanonicalLayout(e: JournalEntry)
    ensures Canonical(e) == HeaderBytes(e) + TextBytes(e) + ReferenceBytes(e) + ExtraBytes(e) + TailBytes(e)
    ensures TextBytes(e) ==
      Framed(Some(e.description)) + Framed(Some(e.domain)) + Framed(e.externalRef) + Framed(e.idempotencyKey)
    ensures ReferenceBytes(e) == Referred(e.reversesEntryId) + Referred(e.reversedByEntryId)
    ensures ExtraBytes(e) == Framed(e.approvedBy) + Framed(e.metadata)
    ensures TailBytes(e) == Unsigned(|e.lines|, 4) + LinesBytes(e.lines)
  {
    FramedIs(e.externalRef);
    FramedIs(e.idempotencyKey);
    FramedIs(e.approvedBy);
    FramedIs(e.metadata);
    ReferredIs(e.reversesEntryId);
    ReferredIs(e.reversedByEntryId);
    Regroup(HeaderBytes(e), TextBytes(e), ReferenceBytes(e), ExtraBytes(e), TailBytes(e));
  }

  /** The lines follow one another in order. */
  lemma {:induction false} LinesConcat(a: seq<JournalLine>, b: seq<JournalLine>)
    ensures LinesBytes(a + b) == LinesBytes(a) + LinesBytes(b)
  {
    if a == [] {
      assert a + b == b;
    } else {
      assert (a + b)[1..] == a[1..] + b;
      LinesConcat(a[1..], b);
    }
  }
}
