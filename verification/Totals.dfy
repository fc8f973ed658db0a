/** Sums over sets of accounts, and the size of every sum the ledger takes. */
module Totals {
  import opened Bytes
  import opened Entries
  import opened Balances

  /** The sum of `f` over a set, independent of the order it is taken in. */
  ghost function Sum(ids: set<Uuid>, f: Uuid -> int): (r: int) {
    if ids == {} then 0
    else
      var x :| x in ids;
      f(x) + Sum(ids - {x}, f)
  }

  lemma {:induction false} SumRemove(ids: set<Uuid>, f: Uuid -> int, x: Uuid)
    requires x in ids
    ensures Sum(ids, f) == f(x) + Sum(ids - {x}, f)
    decreases |ids|
  {
    var y :| y in ids && Sum(ids, f) == f(y) + Sum(ids - {y}, f);
    if y == x {
    } else {
      SumRemove(ids - {y}, f, x);
      SumRemove(ids - {x}, f, y);
      assert ids - {y} - {x} == ids - {x} - {y};
    }
  }

  lemma {:induction false} Distribute(c: int, x: int, y: int)
    ensures c * (x + y) == c * x + c * y
  {
  }

  /** Sums are linear. */
  lemma {:induction false} SumLinear(ids: set<Uuid>, f: Uuid -> int, g: Uuid -> int, h: Uuid -> int, c: int)
    requires forall a :: a in ids ==> h(a) == f(a) + c * g(a)
    ensures Sum(ids, h) == Sum(ids, f) + c * Sum(ids, g)
    decreases |ids|
  {
    if ids == {} {
    } else {
      var x :| x in ids;
      SumRemove(ids, f, x);
      SumRemove(ids, g, x);
      SumRemove(ids, h, x);
      SumLinear(ids - {x}, f, g, h, c);
      Distribute(c, g(x), Sum(ids - {x}, g));
    }
  }

  lemma {:induction false} SumAtMost(ids: set<Uuid>, f: Uuid -> int, g: Uuid -> int)
    requires forall a :: a in ids ==> f(a) <= g(a)
    ensures Sum(ids, f) <= Sum(ids, g)
    decreases |ids|
  {
    if ids == {} {
    } else {
      var x :| x in ids;
      SumRemove(ids, f, x);
      SumRemove(ids, g, x);
      SumAtMost(ids - {x}, f, g);
    }
  }

  lemma {:induction false} SumConstant(ids: set<Uuid>, f: Uuid -> int)
    requires forall a :: a in ids ==> f(a) == 0
    ensures Sum(ids, f) == 0
    decreases |ids|
  {
    if ids == {} {
    } else {
      var x :| x in ids;
      SumRemove(ids, f, x);
      SumConstant(ids - {x}, f);
    }
  }

  lemma {:induction false} SumSingle(ids: set<Uuid>, f: Uuid -> int, x: Uuid)
    requires x in ids && forall a :: a in ids && a != x ==> f(a) == 0
    ensures Sum(ids, f) == f(x)
  {
    SumRemove(ids, f, x);
    SumConstant(ids - {x}, f);
  }

  // ---- Double entry ----

  ghost function LineNets(lines: seq<JournalLine>): (r: Uuid -> int) {
    (a: Uuid) => NetDebit(lines, a)
  }

  ghost function Effects(e: JournalEntry): (r: Uuid -> int) {
    (a: Uuid) => Effect(e, a)
  }

  ghost function Nets(rows: seq<JournalEntry>): (r: Uuid -> int) {
    (a: Uuid) => Net(rows, a)
  }

  ghost function OneLine(l: JournalLine): (r: Uuid -> int) {
    (a: Uuid) => if l.accountId == a then Signed(l) else 0
  }

  /** Over all accounts of its lines, an entry's net debits are its debits less its credits. */
  lemma {:induction false} NetsSumToSides(ids: set<Uuid>, lines: seq<JournalLine>)
    requires forall i :: 0 <= i < |lines| ==> lines[i].accountId in ids
    ensures Sum(ids, LineNets(lines)) == SideTotal(lines, Debit) - SideTotal(lines, Credit)
  {
    if lines == [] {
      SumConstant(ids, LineNets(lines));
    } else {
      var front, last := lines[..|lines| - 1], lines[|lines| - 1];
      NetsSumToSides(ids, front);
      SumLinear(ids, LineNets(front), OneLine(last), LineNets(lines), 1);
      SumSingle(ids, OneLine(last), last.accountId);
    }
  }

  /** Conservation: over all accounts, a balanced journal nets to zero. */
  lemma {:induction false} JournalNetsToZero(accounts: Accounts, rows: seq<JournalEntry>)
    requires EntriesKnown(accounts, rows)
    requires forall i :: 0 <= i < |rows| ==> WellFormed(rows[i])
    ensures Sum(accounts.Keys, Nets(rows)) == 0
  {
    var ids := accounts.Keys;
    if rows == [] {
      SumConstant(ids, Nets(rows));
    } else {
      var front, last := rows[..|rows| - 1], rows[|rows| - 1];
      JournalNetsToZero(accounts, front);
      SumLinear(ids, Nets(front), Effects(last), Nets(rows), 1);
      if AffectsBalance(last.status) {
        assert LinesKnown(accounts, last.lines);
        NetsSumToSides(ids, last.lines);
        SumLinear(ids, LineNets(last.lines), Effects(last), Effects(last), 0);
      } else {
        SumConstant(ids, Effects(last));
      }
    }
  }

  // ---- Bounds ----

  function Abs(x: int): (r: nat) {
    if x < 0 then -x else x
  }

  ghost function AbsOf(f: Uuid -> int): (r: Uuid -> int) {
    (a: Uuid) => Abs(f(a))
  }

  lemma {:induction false} SumTriangle(ids: set<Uuid>, f: Uuid -> int, g: Uuid -> int, h: Uuid -> int)
    requires forall a :: a in ids ==> h(a) == f(a) + g(a)
    ensures Sum(ids, AbsOf(h)) <= Sum(ids, AbsOf(f)) + Sum(ids, AbsOf(g))
    ensures Abs(Sum(ids, h)) <= Sum(ids, AbsOf(h))
    decreases |ids|
  {
    if ids == {} {
    } else {
      var x :| x in ids;
      SumRemove(ids, h, x);
      SumRemove(ids, AbsOf(f), x);
      SumRemove(ids, AbsOf(g), x);
      SumRemove(ids, AbsOf(h), x);
      SumTriangle(ids - {x}, f, g, h);
    }
  }

  lemma {:induction false} OneLineBound(ids: set<Uuid>, l: JournalLine)
    ensures Sum(ids, AbsOf(OneLine(l))) <= TWO_63
  {
    if l.accountId in ids {
      SumSingle(ids, AbsOf(OneLine(l)), l.accountId);
    } else {
      SumConstant(ids, AbsOf(OneLine(l)));
    }
  }

  lemma {:induction false} LinesBound(ids: set<Uuid>, lines: seq<JournalLine>)
    ensures Sum(ids, AbsOf(LineNets(lines))) <= |lines| * TWO_63
  {
    if lines == [] {
      SumConstant(ids, AbsOf(LineNets(lines)));
    } else {
      var front, last := lines[..|lines| - 1], lines[|lines| - 1];
      LinesBound(ids, front);
      OneLineBound(ids, last);
      SumTriangle(ids, LineNets(front), OneLine(last), LineNets(lines));
    }
  }

  function LineCount(rows: seq<JournalEntry>): (r: nat) {
    if rows == [] then 0 else LineCount(rows[..|rows| - 1]) + |rows[|rows| - 1].lines|
  }

  lemma {:induction false} EffectsBound(ids: set<Uuid>, e: JournalEntry)
    ensures Sum(ids, AbsOf(Effects(e))) <= |e.lines| * TWO_63
  {
    if AffectsBalance(e.status) {
      LinesBound(ids, e.lines);
      SumLinear(ids, AbsOf(LineNets(e.lines)), AbsOf(Effects(e)), AbsOf(Effects(e)), 0);
    } else {
      SumConstant(ids, AbsOf(Effects(e)));
    }
  }

  lemma {:induction false} RowsBound(ids: set<Uuid>, rows: seq<JournalEntry>)
    ensures Sum(ids, AbsOf(Nets(rows))) <= LineCount(rows) * TWO_63
  {
    if rows == [] {
      SumConstant(ids, AbsOf(Nets(rows)));
    } else {
      var front, last := rows[..|rows| - 1], rows[|rows| - 1];
      RowsBound(ids, front);
      EffectsBound(ids, last);
      SumTriangle(ids, Nets(front), Effects(last), Nets(rows));
    }
  }

  const TWO_127: nat := TWO_63 * TWO_64

  predicate FitsI128(x: int) {
    -(TWO_127 as int) <= x < TWO_127
  }

  /** With fewer than 2^63 lines in the journal, no sum over it leaves i128, with either sign: not an account's
      net, not twice it, and not a sum of signed nets over any set of accounts. Since the journal is arbitrary,
      this covers every partial sum as well. */
  lemma {:induction false} NoSumOverflows(rows: seq<JournalEntry>, ids: set<Uuid>, a: Uuid, signed: Uuid -> int)
    requires LineCount(rows) < TWO_63
    requires forall x :: x in ids ==> Abs(signed(x)) == Abs(Net(rows, x))
    ensures Abs(2 * Net(rows, a)) < TWO_127 && Abs(Sum(ids, signed)) < TWO_127
  {
    NetBound(rows, a);
    RowsBound(ids, rows);
    SumTriangle(ids, signed, (x: Uuid) => 0, signed);
    SumLinear(ids, AbsOf(Nets(rows)), AbsOf(signed), AbsOf(signed), 0);
    CountBound(LineCount(rows));
  }

  lemma {:induction false} CountBound(n: nat)
    requires n < TWO_63
    ensures 2 * (n * TWO_63) < TWO_127
  {
    assert n * TWO_63 <= (TWO_63 - 1) * TWO_63;
  }

  lemma {:induction false} NetBound(rows: seq<JournalEntry>, a: Uuid)
    ensures Abs(Net(rows, a)) <= LineCount(rows) * TWO_63
  {
    RowsBound({a}, rows);
    var f := AbsOf(Nets(rows));
    SumSingle({a}, f, a);
    assert f(a) == Abs(Nets(rows)(a)) == Abs(Net(rows, a));
  }

  /** The totals taken in validation fit as well. */
  lemma {:induction false} SideTotalBound(lines: seq<JournalLine>, side: DrCr)
    ensures Abs(SideTotal(lines, side)) <= |lines| * TWO_63
    ensures |lines| < TWO_63 ==> FitsI128(SideTotal(lines, side))
  {
    if lines == [] {
    } else {
      SideTotalBound(lines[..|lines| - 1], side);
    }
    if |lines| < TWO_63 {
      assert |lines| * TWO_63 <= (TWO_63 - 1) * TWO_63;
    }
  }
}
