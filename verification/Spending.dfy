/** Sums the service-level results are about: wallet totals, and debits of one
    wallet over periods. */
module Spending {
  import opened Int64
  import opened Ledger
  import opened Protocol
  import opened Invariants
  import opened Least

  // ----- sums over wallets -----------------------------------------------------

  ghost function SumValues(m: map<AccountId, int>): int
    decreases |m|
  {
    if m == map[] then 0
    else
      LeastExists(m.Keys);
      var k :| IsLeast(k, m.Keys);
      m[k] + SumValues(m - {k})
  }

  lemma {:induction false} SumRemove(m: map<AccountId, int>, k: AccountId)
    requires k in m
    ensures SumValues(m) == m[k] + SumValues(m - {k})
    decreases |m|
  {
    LeastExists(m.Keys);
    var j :| IsLeast(j, m.Keys);
    if j != k {
      SumRemove(m - {j}, k);
      assert m - {j} - {k} == m - {k} - {j};
      assert IsLeast(j, (m - {k}).Keys);
    }
  }

  lemma SumInsert(m: map<AccountId, int>, k: AccountId, v: int)
    ensures SumValues(m[k := v]) == SumValues(m) + v - if k in m then m[k] else 0
  {
    SumRemove(m[k := v], k);
    assert m[k := v] - {k} == m - {k};
    if k in m {
      SumRemove(m, k);
    } else {
      assert m - {k} == m;
    }
  }

  lemma {:induction false} MemberWithinSum(m: map<AccountId, int>, k: AccountId)
    requires k in m && forall j | j in m :: m[j] >= 0
    ensures 0 <= m[k] <= SumValues(m)
  {
    SumRemove(m, k);
    SumNonNegative(m - {k});
  }

  lemma {:induction false} SumNonNegative(m: map<AccountId, int>)
    requires forall j | j in m :: m[j] >= 0
    ensures SumValues(m) >= 0
    decreases |m|
  {
    if m != map[] {
      var k :| k in m;
      SumRemove(m, k);
      SumNonNegative(m - {k});
    }
  }

  ghost function Balances(accounts: map<AccountId, Account>, currency: string): map<AccountId, int> {
    map x | x in accounts && accounts[x].Wallet? && accounts[x].currency == currency :: accounts[x].cached
  }

  /** All money users hold in a currency. */
  ghost function WalletTotal(accounts: map<AccountId, Account>, currency: string): int {
    SumValues(Balances(accounts, currency))
  }

  // ----- debits of a wallet ---------------------------------------------------------

  function DebitOn(entries: seq<JournalEntry>, x: AccountId): int {
    if entries == [] then 0
    else
      var e := entries[|entries| - 1];
      DebitOn(entries[..|entries| - 1], x) + if e.account == x && e.direction == Debit then e.amountMinor else 0
  }

  /** Debits of wallet x at instants in [from, to). */
  function DebitsIn(journal: seq<Posting>, x: AccountId, from: int, to: int): int {
    if journal == [] then 0
    else
      var p := journal[|journal| - 1];
      DebitsIn(journal[..|journal| - 1], x, from, to) + if from <= p.at < to then DebitOn(p.entries, x) else 0
  }

  function DebitsSince(journal: seq<Posting>, x: AccountId, from: int): int {
    if journal == [] then 0
    else
      var p := journal[|journal| - 1];
      DebitsSince(journal[..|journal| - 1], x, from) + if from <= p.at then DebitOn(p.entries, x) else 0
  }

  ghost predicate NoDebitsAfter(journal: seq<Posting>, x: AccountId, t: int) {
    forall i | 0 <= i < |journal| && journal[i].at > t :: DebitOn(journal[i].entries, x) == 0
  }

  ghost predicate PositiveRows(journal: seq<Posting>) {
    forall i | 0 <= i < |journal| :: forall k | 0 <= k < |journal[i].entries| :: journal[i].entries[k].amountMinor > 0
  }

  lemma {:induction false} DebitOnNonNegative(entries: seq<JournalEntry>, x: AccountId)
    requires forall k | 0 <= k < |entries| :: entries[k].amountMinor > 0
    ensures DebitOn(entries, x) >= 0
  {
    if entries != [] { DebitOnNonNegative(entries[..|entries| - 1], x); }
  }

  lemma {:induction false} DebitsNested(journal: seq<Posting>, x: AccountId, from: int, to: int, from': int)
    requires PositiveRows(journal) && from' <= from
    ensures 0 <= DebitsIn(journal, x, from, to) <= DebitsSince(journal, x, from')
  {
    if journal != [] {
      DebitsNested(journal[..|journal| - 1], x, from, to, from');
      DebitOnNonNegative(journal[|journal| - 1].entries, x);
    }
  }

  lemma {:induction false} DebitsSplit(journal: seq<Posting>, x: AccountId, from: int, mid: int, to: int)
    requires from <= mid <= to
    ensures DebitsIn(journal, x, from, to) == DebitsIn(journal, x, from, mid) + DebitsIn(journal, x, mid, to)
  {
    if journal != [] { DebitsSplit(journal[..|journal| - 1], x, from, mid, to); }
  }

  lemma {:induction false} DebitsUpToNow(journal: seq<Posting>, x: AccountId, from: int, now: int, to: int)
    requires NoDebitsAfter(journal, x, now) && now < to
    ensures DebitsSince(journal, x, from) == DebitsIn(journal, x, from, to)
  {
    if journal != [] { DebitsUpToNow(journal[..|journal| - 1], x, from, now, to); }
  }

  // ----- the spending query ------------------------------------------------------------

  lemma {:induction false} DebitsOfIsDebitOn(accounts: map<AccountId, Account>, entries: seq<JournalEntry>,
                                             x: AccountId)
    requires WalletsUnique(accounts) && x in accounts && accounts[x].Wallet?
    requires forall k | 0 <= k < |entries| :: EntryOk(accounts, entries[k])
    ensures DebitsOf(accounts, entries, accounts[x].user, accounts[x].currency) == DebitOn(entries, x)
  {
    if entries != [] {
      var n := |entries| - 1;
      assert EntryOk(accounts, entries[n]);
      DebitsOfIsDebitOn(accounts, entries[..n], x);
    }
  }

  /** The query sums exactly the debits of the user's one wallet in the currency. */
  lemma {:induction false} OutgoingIsDebits(accounts: map<AccountId, Account>, journal: seq<Posting>, x: AccountId,
                                            since: int)
    requires WalletsUnique(accounts) && x in accounts && accounts[x].Wallet?
    requires forall i | 0 <= i < |journal| :: PostingOk(accounts, journal[i])
    ensures OutgoingSince(accounts, journal, accounts[x].user, accounts[x].currency, since)
        == DebitsSince(journal, x, since)
  {
    if journal != [] {
      var n := |journal| - 1;
      assert PostingOk(accounts, journal[n]);
      OutgoingIsDebits(accounts, journal[..n], x, since);
      DebitsOfIsDebitOn(accounts, journal[n].entries, x);
    }
  }

  // ----- the ceiling comparison -------------------------------------------------

  /** The int64 comparison agrees with the exact one if and only if the addition
      does not overflow. */
  lemma CeilingCheckExactIff(sum: int, amount: int, ceiling: int)
    requires 0 <= sum <= MAX && 0 < amount <= MAX && 0 <= ceiling < MAX
    ensures (WithinCeiling(sum, amount, ceiling) <==> sum + amount <= ceiling) <==> amount <= MAX - sum
  {
  }

  /** Both comparisons of the check together agree with the exact limits if and only if
      the daily sum does not overflow, nor the monthly one when it is reached. */
  lemma WholeCheckExactIff(day: int, month: int, amount: int, daily: int, monthly: int)
    requires 0 <= day <= month <= MAX && 0 < amount <= MAX && 0 <= daily < MAX && 0 <= monthly < MAX
    ensures ((WithinCeiling(day, amount, daily) && WithinCeiling(month, amount, monthly))
             <==> (day + amount <= daily && month + amount <= monthly))
      <==> amount <= MAX - day && (day + amount <= daily ==> amount <= MAX - month)
  {
    CeilingCheckExactIff(day, amount, daily);
    CeilingCheckExactIff(month, amount, monthly);
  }

  /** As long as the month is within its limit, only the daily sum can overflow. */
  lemma CheckExactIff(day: int, month: int, amount: int, daily: int, monthly: int)
    requires 0 <= day <= month <= monthly <= MAX - daily && 0 < amount <= MAX && 0 < daily <= monthly
    ensures ((WithinCeiling(day, amount, daily) && WithinCeiling(month, amount, monthly))
             <==> (day + amount <= daily && month + amount <= monthly))
      <==> amount <= MAX - day
  {
    WholeCheckExactIff(day, month, amount, daily, monthly);
  }

  lemma {:induction false} DebitsOfNonNegative(accounts: map<AccountId, Account>, entries: seq<JournalEntry>,
                                               user: string, currency: string)
    requires forall k | 0 <= k < |entries| :: entries[k].amountMinor > 0
    ensures DebitsOf(accounts, entries, user, currency) >= 0
  {
    if entries != [] { DebitsOfNonNegative(accounts, entries[..|entries| - 1], user, currency); }
  }

  lemma {:induction false} OutgoingNested(accounts: map<AccountId, Account>, journal: seq<Posting>,
                                          user: string, currency: string, since: int, since': int)
    requires PositiveRows(journal) && since <= since'
    ensures 0 <= OutgoingSince(accounts, journal, user, currency, since')
              <= OutgoingSince(accounts, journal, user, currency, since)
  {
    if journal != [] {
      OutgoingNested(accounts, journal[..|journal| - 1], user, currency, since, since');
      DebitsOfNonNegative(accounts, journal[|journal| - 1].entries, user, currency);
    }
  }

  lemma JournalPositive(db: Db, nextId: nat)
    requires JournalOk(db, nextId)
    ensures PositiveRows(db.journal)
  {
    forall i, k | 0 <= i < |db.journal| && 0 <= k < |db.journal[i].entries|
      ensures db.journal[i].entries[k].amountMinor > 0
    {
      assert PostingOk(db.accounts, db.journal[i]);
      assert EntryOk(db.accounts, db.journal[i].entries[k]);
    }
  }

  /** Spending since a later instant is part of the spending since an earlier one. */
  lemma OutgoingMonotone(db: Db, nextId: nat, user: string, currency: string, since: int, since': int)
    requires JournalOk(db, nextId) && since <= since'
    ensures 0 <= OutgoingSince(db.accounts, db.journal, user, currency, since')
              <= OutgoingSince(db.accounts, db.journal, user, currency, since)
  {
    JournalPositive(db, nextId);
    OutgoingNested(db.accounts, db.journal, user, currency, since, since');
  }
}
