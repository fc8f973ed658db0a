/** Two-line entries: a debit on one account against a credit on another. */
module Transfers {
  import opened Bytes
  import opened Entries
  import opened Balances
  import opened Ledger

  /** Debits `to` and credits `from`. */
  predicate IsTransfer(e: JournalEntry, to: Uuid, from: Uuid, amount: Amount, currency: Str) {
    && to != from && |e.lines| == 2
    && e.lines[0].accountId == to && e.lines[0].drCr.Debit?
    && e.lines[1].accountId == from && e.lines[1].drCr.Credit?
    && (forall i :: 0 <= i < 2 ==> e.lines[i].amount == amount && e.lines[i].currencyCode == currency)
  }

  /** Open for entries in a currency, without an exposure limit or four-eyes control. */
  predicate Usable(accounts: Accounts, a: Uuid, currency: Str) {
    && a in accounts && accounts[a].status.Active? && !accounts[a].legalHold
    && accounts[a].currencyCode == currency && accounts[a].exposureLimit.None? && !accounts[a].requireFourEyes
  }

  /** An account whose balance may not go below zero. */
  predicate Guarded(account: Account) {
    account.requireNonNegativeBalance && DebitNormal(account.accountType)
  }

  predicate WithinPrecision(reg: Registry, amount: Amount, currency: Str) {
    currency in reg ==> AbsI64(amount) <= MaxMinor(reg[currency])
  }

  lemma {:induction false} NetDebitSnoc(lines: seq<JournalLine>, l: JournalLine, a: Uuid)
    ensures NetDebit(lines + [l], a) == NetDebit(lines, a) + (if l.accountId == a then Signed(l) else 0)
  {
    assert (lines + [l])[..|lines|] == lines;
  }

  lemma {:induction false} SideTotalSnoc(lines: seq<JournalLine>, l: JournalLine, side: DrCr)
    ensures SideTotal(lines + [l], side) == SideTotal(lines, side) + (if l.drCr == side then l.amount else 0)
  {
    assert (lines + [l])[..|lines|] == lines;
  }

  lemma {:induction false} TransferNets(e: JournalEntry, to: Uuid, from: Uuid, amount: Amount, currency: Str, a: Uuid)
    requires IsTransfer(e, to, from, amount, currency)
    ensures NetDebit(e.lines, a) == if a == to then amount as int else if a == from then -(amount as int) else 0
  {
    NetDebitSnoc([], e.lines[0], a);
    NetDebitSnoc([] + [e.lines[0]], e.lines[1], a);
    assert e.lines == [] + [e.lines[0]] + [e.lines[1]];
  }

  lemma {:induction false} TransferWellFormed(e: JournalEntry, to: Uuid, from: Uuid, amount: Amount, currency: Str)
    requires IsTransfer(e, to, from, amount, currency)
    ensures WellFormed(e)
  {
    forall side ensures SideTotal(e.lines, side) == amount {
      SideTotalSnoc([], e.lines[0], side);
      SideTotalSnoc([] + [e.lines[0]], e.lines[1], side);
      assert e.lines == [] + [e.lines[0]] + [e.lines[1]];
    }
  }

  /** The account is unguarded, gains, or has enough to lose. */
  predicate Covers(account: Account, cache: Cache, a: Uuid, delta: int) {
    Guarded(account) && delta < 0 ==> Balance(cache, a) + delta >= 0
  }

  /** A transfer between usable accounts, of an amount of either sign, is accepted when its key is new and
      each account covers what it loses. */
  lemma {:induction false} TransferAccepted(s: State, reg: Registry, e: JournalEntry,
                                            to: Uuid, from: Uuid, amount: Amount, currency: Str)
    requires IsTransfer(e, to, from, amount, currency)
    requires Usable(s.accounts, to, currency) && Usable(s.accounts, from, currency)
    requires WithinPrecision(reg, amount, currency) && !KeyAlreadyPosted(s.index.rows, e)
    requires Covers(s.accounts[from], s.cache, from, -(amount as int)) && Covers(s.accounts[to], s.cache, to, amount)
    ensures Accepts(s, reg, e)
  {
    TransferWellFormed(e, to, from, amount, currency);
    forall i | 0 <= i < |e.lines| ensures LineError(s.accounts, reg, e, e.lines[i]).None? {
      assert i == 0 || i == 1;
    }
    forall a | a in s.accounts && Touches(e, a) ensures AccountError(a, s.accounts[a], s.cache, e).None? {
      TransferNets(e, to, from, amount, currency, a);
    }
  }
}
