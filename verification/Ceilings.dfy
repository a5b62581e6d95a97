/** Spending ceilings over whole runs, for one user and currency at a time. They hold
    exactly when no single debit exceeds the daily ceiling; only an overflowing daily sum
    lets such a send through, and bounds on sends or on top-ups keep that sum in range. By
    joint induction with no-overdraft and, for the bound on top-ups, conservation. */
module Ceilings {
  import opened Int64
  import opened Ledger
  import opened Protocol
  import opened Invariants
  import opened Preservation
  import opened Spending
  import opened Transfers
  import opened Solvency
  import Calendar
  import Kyc

  /** A user without a level row cannot pass the check, so may spend nothing. */
  function LimitsOf(s: State, user: string): Kyc.Limits {
    if user in s.levels then Kyc.LimitsFor(s.levels[user]) else Kyc.Limits(0, 0)
  }

  ghost predicate WithinDay(journal: seq<Posting>, x: AccountId, limit: int) {
    forall d: nat :: DebitsIn(journal, x, d * Calendar.DAY, (d + 1) * Calendar.DAY) <= limit
  }

  ghost predicate WithinMonth(journal: seq<Posting>, x: AccountId, limit: int) {
    forall m: nat ::
      DebitsIn(journal, x, Calendar.FirstDay(m) * Calendar.DAY, Calendar.FirstDay(m + 1) * Calendar.DAY) <= limit
  }

  ghost predicate WalletWithin(s: State, x: AccountId)
    requires x in s.db.accounts && s.db.accounts[x].Wallet?
  {
    && WithinDay(s.db.journal, x, LimitsOf(s, s.db.accounts[x].user).dailyMinor)
    && WithinMonth(s.db.journal, x, LimitsOf(s, s.db.accounts[x].user).monthlyMinor)
  }

  ghost predicate JournalTimesOk(s: State) {
    forall i | 0 <= i < |s.db.journal| :: 0 <= s.db.journal[i].at <= s.clock
  }

  ghost predicate TimesOk(s: State) {
    && JournalTimesOk(s)
    && (forall p | 0 <= p < |s.procs| && (s.procs[p].pc.Locking? || s.procs[p].pc.Writing?) :: s.procs[p].at <= s.clock)
  }

  predicate Small(s: State, p: Proc)
    requires p.req.Send?
  {
    p.req.amountMinor <= LimitsOf(s, p.req.from).dailyMinor
  }

  /** What the checks of a pending send established about its wallet x, and still hold
      because only this send may debit x: the exact comparisons, for an amount within the
      daily ceiling. */
  ghost predicate CheckedOn(s: State, p: Proc, x: AccountId)
    requires p.req.Send?
  {
    && p.now <= s.clock
    && NoDebitsAfter(s.db.journal, x, p.now)
    && (!p.pc.Day? && Small(s, p) ==>
          DebitsSince(s.db.journal, x, Calendar.StartOfDay(p.now)) + p.req.amountMinor
            <= LimitsOf(s, p.req.from).dailyMinor)
    && (!p.pc.Day? && !p.pc.Month? && Small(s, p) ==>
          DebitsSince(s.db.journal, x, Calendar.StartOfMonth(p.now)) + p.req.amountMinor
            <= LimitsOf(s, p.req.from).monthlyMinor)
    && (p.pc.Locking? || p.pc.Writing? ==> p.now <= p.at)
  }

  ghost predicate Checked(s: State, p: Proc) {
    Pending(s.db, p) && !p.pc.Clock? ==>
      forall x | x in s.db.accounts && IsWallet(s.db.accounts[x], p.req.from, p.req.currency) :: CheckedOn(s, p, x)
  }

  ghost predicate CeilInv(s: State, who: string, cur: string) {
    && TimesOk(s)
    && (forall p | 0 <= p < |s.procs| && Pays(s.procs[p].req, who, cur) :: Checked(s, s.procs[p]))
    && (forall x | x in s.db.accounts && IsWallet(s.db.accounts[x], who, cur) :: WalletWithin(s, x))
  }

  ghost predicate Joint(s: State, who: string, cur: string) {
    Inv(s) && FundInv(s, who, cur) && CeilInv(s, who, cur)
  }

  /** What the day check adds up fits int64, and what the month check adds up. */
  ghost predicate DaySumFits(s: State, p: Proc)
    requires p.req.Send?
  {
    InRange(p.req.amountMinor +
      OutgoingSince(s.db.accounts, s.db.journal, p.req.from, p.req.currency, Calendar.StartOfDay(p.now)))
  }

  ghost predicate MonthSumFits(s: State, p: Proc)
    requires p.req.Send?
  {
    InRange(p.req.amountMinor +
      OutgoingSince(s.db.accounts, s.db.journal, p.req.from, p.req.currency, Calendar.StartOfMonth(p.now)))
  }

  /** No send of the user in the currency is about to overflow its daily sum. */
  ghost predicate DaySumsFit(s: State, who: string, cur: string) {
    forall p | 0 <= p < |s.procs| && Pays(s.procs[p].req, who, cur) && s.procs[p].pc.Day? :: DaySumFits(s, s.procs[p])
  }

  // ----- the sums of the check ------------------------------------------------------

  /** The two sums the check reads are today's and this month's debits, so they are
      within the ceilings already. */
  lemma SumsWithinCeilings(s: State, p: Proc, x: AccountId)
    requires Inv(s) && p.req.Send?
    requires x in s.db.accounts && IsWallet(s.db.accounts[x], p.req.from, p.req.currency) && WalletWithin(s, x)
    requires NoDebitsAfter(s.db.journal, x, p.now)
    ensures 0 <= OutgoingSince(s.db.accounts, s.db.journal, p.req.from, p.req.currency, Calendar.StartOfDay(p.now))
              == DebitsSince(s.db.journal, x, Calendar.StartOfDay(p.now)) <= LimitsOf(s, p.req.from).dailyMinor
    ensures 0 <= OutgoingSince(s.db.accounts, s.db.journal, p.req.from, p.req.currency, Calendar.StartOfMonth(p.now))
              == DebitsSince(s.db.journal, x, Calendar.StartOfMonth(p.now)) <= LimitsOf(s, p.req.from).monthlyMinor
  {
    var j := s.db.journal;
    var d, day, month := p.now / Calendar.DAY, Calendar.StartOfDay(p.now), Calendar.StartOfMonth(p.now);
    var m := Calendar.MonthOf(d);
    OutgoingIsDebits(s.db.accounts, j, x, day);
    OutgoingIsDebits(s.db.accounts, j, x, month);
    Calendar.DayBounds(p.now, d);
    Calendar.MonthBounds(p.now, m);
    JournalPositive(s.db, s.nextId);
    DebitsUpToNow(j, x, day, p.now, (d + 1) * Calendar.DAY);
    DebitsUpToNow(j, x, month, p.now, Calendar.FirstDay(m + 1) * Calendar.DAY);
    DebitsNested(j, x, day, (d + 1) * Calendar.DAY, day);
    DebitsNested(j, x, month, Calendar.FirstDay(m + 1) * Calendar.DAY, month);
  }

  /** For an amount within the daily ceiling neither sum leaves int64. */
  lemma SmallSumsFit(s: State, p: Proc, x: AccountId)
    requires Inv(s) && p.req.Send? && Small(s, p)
    requires x in s.db.accounts && IsWallet(s.db.accounts[x], p.req.from, p.req.currency) && WalletWithin(s, x)
    requires NoDebitsAfter(s.db.journal, x, p.now)
    ensures DaySumFits(s, p) && MonthSumFits(s, p)
  {
    SumsWithinCeilings(s, p, x);
  }

  // ----- the mover ---------------------------------------------------------------------

  lemma ClockCheckedOn(s: State, t: State, p: Proc, x: AccountId)
    requires p.req.Send? && TimesOk(s) && s.db == t.db && s.clock <= t.clock
    ensures CheckedOn(t, p.(pc := Day, now := t.clock), x)
  {
  }

  /** Passing the daily comparison with such an amount means being within the ceiling. */
  lemma DayCheckedOn(s: State, t: State, p: Proc, x: AccountId)
    requires Inv(s) && p.req.Send? && p.pc.Day?
    requires x in s.db.accounts && IsWallet(s.db.accounts[x], p.req.from, p.req.currency) && WalletWithin(s, x)
    requires s.db == t.db && s.clock <= t.clock && s.levels == t.levels
    requires CheckedOn(s, p, x) && AfterDay(s, p).pc.Month?
    ensures CheckedOn(t, AfterDay(s, p), x)
  {
    SumsWithinCeilings(s, p, x);
    if Small(s, p) { SmallSumsFit(s, p, x); }
  }

  /** Likewise for the monthly comparison. */
  lemma MonthCheckedOn(s: State, t: State, p: Proc, x: AccountId)
    requires Inv(s) && p.req.Send? && p.pc.Month?
    requires x in s.db.accounts && IsWallet(s.db.accounts[x], p.req.from, p.req.currency) && WalletWithin(s, x)
    requires s.db == t.db && s.clock <= t.clock && s.levels == t.levels
    requires CheckedOn(s, p, x) && AfterMonth(s, p).pc.Resolving?
    ensures CheckedOn(t, AfterMonth(s, p), x)
  {
    SumsWithinCeilings(s, p, x);
    if Small(s, p) { SmallSumsFit(s, p, x); }
  }

  /** Past the checks, what they established about the wallet still holds. */
  lemma ReadingKeepsCheckedOn(s: State, t: State, p: Proc, q: Proc, x: AccountId)
    requires p.req.Send? && PastChecks(p) && CheckedOn(s, p, x) && KeepsReading(p, q, t.clock)
    requires t.db == s.db && t.levels == s.levels && s.clock <= t.clock
    ensures q.req.Send? && CheckedOn(t, q, x)
  {
  }

  lemma CheckingCheckedOn(s: State, m: Move, x: AccountId)
    requires Inv(s) && TimesOk(s) && Enabled(s, m)
    requires s.procs[m.pid].pc.Clock? || s.procs[m.pid].pc.Day? || s.procs[m.pid].pc.Month?
    requires Pending(s.db, Next(s, m).procs[m.pid]) && s.procs[m.pid].req.Send?
    requires x in s.db.accounts && IsWallet(s.db.accounts[x], s.procs[m.pid].req.from, s.procs[m.pid].req.currency)
    requires WalletWithin(s, x)
    requires s.procs[m.pid].pc.Clock? || CheckedOn(s, s.procs[m.pid], x)
    ensures CheckedOn(Next(s, m), Next(s, m).procs[m.pid], x)
  {
    var p, t := s.procs[m.pid], Next(s, m);
    if p.pc.Clock? {
      ClockCheckedOn(s, t, p, x);
    } else if p.pc.Day? {
      DayCheckedOn(s, t, p, x);
    } else {
      MonthCheckedOn(s, t, p, x);
    }
  }

  lemma MoverCheckedOn(s: State, m: Move, x: AccountId)
    requires Inv(s) && TimesOk(s) && Enabled(s, m) && EventOf(s, m).None? && Next(s, m).db == s.db
    requires Pending(s.db, Next(s, m).procs[m.pid]) && !Next(s, m).procs[m.pid].pc.Clock?
    requires Pending(s.db, s.procs[m.pid]) && Checked(s, s.procs[m.pid])
    requires x in s.db.accounts && IsWallet(s.db.accounts[x], s.procs[m.pid].req.from, s.procs[m.pid].req.currency)
    requires WalletWithin(s, x)
    ensures CheckedOn(Next(s, m), Next(s, m).procs[m.pid], x)
  {
    var p := s.procs[m.pid];
    if PastChecks(p) {
      PostingKeepsReading(s, m);
      ReadingKeepsCheckedOn(s, Next(s, m), p, Next(s, m).procs[m.pid], x);
    } else {
      CheckingCheckedOn(s, m, x);
    }
  }

  /** A call pending after a silent move, and past Clock, was pending before. */
  lemma PendingBefore(s: State, m: Move)
    requires Inv(s) && Enabled(s, m) && EventOf(s, m).None?
    requires Pending(s.db, Next(s, m).procs[m.pid]) && !Next(s, m).procs[m.pid].pc.Clock?
    ensures Pending(s.db, s.procs[m.pid])
  {
    assert ProcOk(s.db, s.nextId, s.procs[m.pid]);
    if PastChecks(s.procs[m.pid]) { PostingKeepsReading(s, m); }
  }

  lemma MoverChecked(s: State, m: Move, who: string, cur: string)
    requires Joint(s, who, cur) && Enabled(s, m) && EventOf(s, m).None?
    requires Pays(s.procs[m.pid].req, who, cur)
    ensures Checked(Next(s, m), Next(s, m).procs[m.pid])
  {
    var p, t := s.procs[m.pid], Next(s, m);
    var q := t.procs[m.pid];
    MoveIsAtomic(s, m);
    assert ReqOk(p) && Checked(s, p);
    if Pending(t.db, q) && !q.pc.Clock? {
      MoverReq(s, m);
      PendingBefore(s, m);
      forall x | x in t.db.accounts && IsWallet(t.db.accounts[x], q.req.from, q.req.currency)
        ensures CheckedOn(t, q, x)
      {
        assert WalletWithin(s, x);
        MoverCheckedOn(s, m, x);
      }
    }
  }

  // ----- a commit ------------------------------------------------------------------

  /** A call about to commit: its posting is the next journal row. */
  ghost predicate Committing(s: State, p: Proc) {
    && p in s.procs && p.pc.Writing? && |p.ids| == |p.Entries()|
    && ProcOk(s.db, s.nextId, p) && ReqOk(p) && !p.req.Direct? && WalletsUnique(s.db.accounts)
  }

  /** The only wallet a commit debits is its own sender's. */
  lemma CommitDebits(s: State, p: Proc, x: AccountId, from: int, to: int)
    requires Committing(s, p) && x in s.db.accounts && s.db.accounts[x].Wallet?
    ensures DebitOn(PostingOf(p).entries, x) == Spent(p.req, s.db.accounts[x])
    ensures DebitsIn(s.db.journal + [PostingOf(p)], x, from, to)
         == DebitsIn(s.db.journal, x, from, to) + if from <= p.at < to then Spent(p.req, s.db.accounts[x]) else 0
  {
    RowsEffect(s.db, p, x);
    assert (s.db.journal + [PostingOf(p)])[..|s.db.journal|] == s.db.journal;
  }

  /** Committing a checked send stays within the daily ceiling, also when its
      transaction began on a later day than the check. */
  lemma SendStaysWithinDay(s: State, p: Proc, x: AccountId)
    requires Committing(s, p) && p.req.Send? && PositiveRows(s.db.journal)
    requires x in s.db.accounts && IsWallet(s.db.accounts[x], p.req.from, p.req.currency)
    requires CheckedOn(s, p, x) && Small(s, p) && WithinDay(s.db.journal, x, LimitsOf(s, p.req.from).dailyMinor)
    ensures WithinDay(s.db.journal + [PostingOf(p)], x, LimitsOf(s, p.req.from).dailyMinor)
  {
    var j := s.db.journal;
    Calendar.StartsMonotone(p.now, p.at);
    forall d: nat
      ensures DebitsIn(j + [PostingOf(p)], x, d * Calendar.DAY, (d + 1) * Calendar.DAY)
           <= LimitsOf(s, p.req.from).dailyMinor
    {
      CommitDebits(s, p, x, d * Calendar.DAY, (d + 1) * Calendar.DAY);
      if d * Calendar.DAY <= p.at < (d + 1) * Calendar.DAY {
        Calendar.DayBounds(p.at, d);
        DebitsNested(j, x, d * Calendar.DAY, (d + 1) * Calendar.DAY, Calendar.StartOfDay(p.now));
      }
    }
  }

  /** Likewise for the month. */
  lemma SendStaysWithinMonth(s: State, p: Proc, x: AccountId)
    requires Committing(s, p) && p.req.Send? && PositiveRows(s.db.journal)
    requires x in s.db.accounts && IsWallet(s.db.accounts[x], p.req.from, p.req.currency)
    requires CheckedOn(s, p, x) && Small(s, p) && WithinMonth(s.db.journal, x, LimitsOf(s, p.req.from).monthlyMinor)
    ensures WithinMonth(s.db.journal + [PostingOf(p)], x, LimitsOf(s, p.req.from).monthlyMinor)
  {
    var j := s.db.journal;
    Calendar.StartsMonotone(p.now, p.at);
    forall k: nat
      ensures var a, b := Calendar.FirstDay(k) * Calendar.DAY, Calendar.FirstDay(k + 1) * Calendar.DAY;
        DebitsIn(j + [PostingOf(p)], x, a, b) <= LimitsOf(s, p.req.from).monthlyMinor
    {
      var a, b := Calendar.FirstDay(k) * Calendar.DAY, Calendar.FirstDay(k + 1) * Calendar.DAY;
      CommitDebits(s, p, x, a, b);
      if a <= p.at < b {
        Calendar.MonthBounds(p.at, k);
        DebitsNested(j, x, a, b, Calendar.StartOfMonth(p.now));
      }
    }
  }

  lemma UntouchedStaysWithin(s: State, p: Proc, x: AccountId, limits: Kyc.Limits)
    requires Committing(s, p)
    requires x in s.db.accounts && s.db.accounts[x].Wallet? && Spent(p.req, s.db.accounts[x]) == 0
    requires WithinDay(s.db.journal, x, limits.dailyMinor) && WithinMonth(s.db.journal, x, limits.monthlyMinor)
    ensures WithinDay(s.db.journal + [PostingOf(p)], x, limits.dailyMinor)
    ensures WithinMonth(s.db.journal + [PostingOf(p)], x, limits.monthlyMinor)
  {
    forall a: int, b: int ensures DebitsIn(s.db.journal + [PostingOf(p)], x, a, b) == DebitsIn(s.db.journal, x, a, b) {
      CommitDebits(s, p, x, a, b);
    }
  }

  lemma CommitKeepsWithin(s: State, p: Proc, x: AccountId)
    requires Inv(s) && Committing(s, p) && !KeyUsed(s.db.journal, p.Key())
    requires x in s.db.accounts && s.db.accounts[x].Wallet? && WalletWithin(s, x)
    requires Pays(p.req, s.db.accounts[x].user, s.db.accounts[x].currency) ==> Checked(s, p) && Small(s, p)
    ensures WithinDay(s.db.journal + [PostingOf(p)], x, LimitsOf(s, s.db.accounts[x].user).dailyMinor)
    ensures WithinMonth(s.db.journal + [PostingOf(p)], x, LimitsOf(s, s.db.accounts[x].user).monthlyMinor)
  {
    if p.req.Send? && IsWallet(s.db.accounts[x], p.req.from, p.req.currency) {
      assert CheckedOn(s, p, x);
      JournalPositive(s.db, s.nextId);
      SendStaysWithinDay(s, p, x);
      SendStaysWithinMonth(s, p, x);
    } else {
      UntouchedStaysWithin(s, p, x, LimitsOf(s, s.db.accounts[x].user));
    }
  }

  /** Another pending send's wallet is not debited by this commit. */
  lemma CommitKeepsOtherChecked(s: State, t: State, p: Proc, a: Proc)
    requires Committing(s, p) && Checked(s, a)
    requires t.db == Apply(s.db, Posted(PostingOf(p))) && t.levels == s.levels && s.clock <= t.clock
    requires KeyUsed(s.db.journal, a.Key()) ==> KeyUsed(t.db.journal, a.Key())
    requires InFlight(a) && p.req.Send? ==> p.req.from != a.req.from || p.req.currency != a.req.currency
    ensures Checked(t, a)
  {
    if Pending(t.db, a) && !a.pc.Clock? {
      forall x | x in t.db.accounts && IsWallet(t.db.accounts[x], a.req.from, a.req.currency)
        ensures CheckedOn(t, a, x)
      {
        assert IsWallet(s.db.accounts[x], a.req.from, a.req.currency);
        assert CheckedOn(s, a, x);
        UndebitedKeepsChecked(s, t, p, a, x);
      }
    }
  }

  lemma UndebitedKeepsChecked(s: State, t: State, p: Proc, a: Proc, x: AccountId)
    requires Committing(s, p) && a.req.Send? && CheckedOn(s, a, x)
    requires t.db.journal == s.db.journal + [PostingOf(p)] && t.levels == s.levels && s.clock <= t.clock
    requires x in s.db.accounts && s.db.accounts[x].Wallet? && Spent(p.req, s.db.accounts[x]) == 0
    ensures CheckedOn(t, a, x)
  {
    CommitDebits(s, p, x, 0, 0);
    assert t.db.journal[..|s.db.journal|] == s.db.journal;
  }

  // ----- a new wallet -----------------------------------------------------------------

  lemma {:induction false} NoRowsNoDebits(journal: seq<Posting>, x: AccountId, from: int, to: int)
    requires forall i | 0 <= i < |journal| ::
      forall k | 0 <= k < |journal[i].entries| :: journal[i].entries[k].account != x
    ensures DebitsIn(journal, x, from, to) == 0
  {
    if journal != [] {
      NoRowsNoDebits(journal[..|journal| - 1], x, from, to);
      NoRowNoDebit(journal[|journal| - 1].entries, x);
    }
  }

  lemma {:induction false} NoRowNoDebit(entries: seq<JournalEntry>, x: AccountId)
    requires forall k | 0 <= k < |entries| :: entries[k].account != x
    ensures DebitOn(entries, x) == 0
  {
    if entries != [] { NoRowNoDebit(entries[..|entries| - 1], x); }
  }

  lemma NewWalletWithin(s: State, t: State, id: AccountId)
    requires Inv(s) && id !in s.db.accounts && id in t.db.accounts && t.db.accounts[id].Wallet?
    requires t.db.journal == s.db.journal
    ensures WalletWithin(t, id)
  {
    forall i, k | 0 <= i < |s.db.journal| && 0 <= k < |s.db.journal[i].entries|
      ensures s.db.journal[i].entries[k].account != id
    {
      assert PostingOk(s.db.accounts, s.db.journal[i]);
      assert EntryOk(s.db.accounts, s.db.journal[i].entries[k]);
    }
    forall from: int, to: int ensures DebitsIn(t.db.journal, id, from, to) == 0 {
      NoRowsNoDebits(t.db.journal, id, from, to);
    }
  }

  // ----- all together -----------------------------------------------------------------

  lemma ProvisionKeepsChecked(s: State, m: Move, q: Proc, id: AccountId, user: string, currency: string)
    requires Inv(s) && Enabled(s, m) && EventOf(s, m) == Some(Provisioned(id, user, currency))
    requires Checked(s, q) && Funded(s.db, q)
    ensures Checked(Next(s, m), q)
  {
    var t := Next(s, m);
    MoveIsAtomic(s, m);
    if Pending(t.db, q) && !q.pc.Clock? {
      forall x | x in t.db.accounts && IsWallet(t.db.accounts[x], q.req.from, q.req.currency)
        ensures CheckedOn(t, q, x)
      {
        assert x in s.db.accounts;
        assert CheckedOn(s, q, x);
      }
    }
  }

  /** The provisioning call itself moves on past its checks, same reading. */
  lemma ProvisionerChecked(s: State, m: Move, id: AccountId, user: string, currency: string)
    requires Inv(s) && Enabled(s, m) && EventOf(s, m) == Some(Provisioned(id, user, currency))
    requires Checked(s, s.procs[m.pid]) && Funded(s.db, s.procs[m.pid])
    ensures Checked(Next(s, m), Next(s, m).procs[m.pid])
  {
    var p := s.procs[m.pid];
    assert ProcOk(s.db, s.nextId, p);
    ProvisionKeepsChecked(s, m, p, id, user, currency);
    PostingKeepsReading(s, m);
    var t := Next(s, m);
    var q := t.procs[m.pid];
    if Pending(t.db, q) && !q.pc.Clock? {
      forall x | x in t.db.accounts && IsWallet(t.db.accounts[x], q.req.from, q.req.currency)
        ensures CheckedOn(t, q, x)
      {
        assert CheckedOn(t, p, x);
      }
    }
  }

  lemma JournalTimesKept(s: State, m: Move)
    requires Inv(s) && TimesOk(s) && Enabled(s, m)
    ensures JournalTimesOk(Next(s, m))
  {
    MoveIsAtomic(s, m);
    TablesKept(s, m);
    assert ProcOk(s.db, s.nextId, s.procs[m.pid]);
  }

  lemma TimesKept(s: State, m: Move)
    requires Inv(s) && TimesOk(s) && Enabled(s, m)
    ensures TimesOk(Next(s, m))
  {
    JournalTimesKept(s, m);
    if PastChecks(s.procs[m.pid]) { PostingKeepsReading(s, m); }
    MoverKept(s, m);
  }

  lemma SilentKeepsCeilInv(s: State, m: Move, who: string, cur: string)
    requires Joint(s, who, cur) && Enabled(s, m) && EventOf(s, m).None?
    ensures CeilInv(Next(s, m), who, cur)
  {
    var t := Next(s, m);
    MoveIsAtomic(s, m);
    TimesKept(s, m);
    MoveKeepsReqs(s, m);
    if Pays(s.procs[m.pid].req, who, cur) { MoverChecked(s, m, who, cur); }
    forall q | 0 <= q < |s.procs| && q != m.pid && Pays(s.procs[q].req, who, cur) ensures Checked(t, s.procs[q]) {
      QuietKeepsOtherChecked(s, t, s.procs[q]);
    }
    forall x | x in t.db.accounts && IsWallet(t.db.accounts[x], who, cur) ensures WalletWithin(t, x) {
      assert WalletWithin(s, x);
    }
  }

  lemma ProvisionKeepsCeilInv(s: State, m: Move, who: string, cur: string,
                              id: AccountId, user: string, currency: string)
    requires Joint(s, who, cur) && Enabled(s, m) && EventOf(s, m) == Some(Provisioned(id, user, currency))
    ensures CeilInv(Next(s, m), who, cur)
  {
    var t := Next(s, m);
    MoveIsAtomic(s, m);
    TimesKept(s, m);
    MoveKeepsReqs(s, m);
    forall q | 0 <= q < |s.procs| && Pays(s.procs[q].req, who, cur) ensures Checked(t, t.procs[q]) {
      assert Checked(s, s.procs[q]) && Funded(s.db, s.procs[q]);
      if q == m.pid {
        ProvisionerChecked(s, m, id, user, currency);
      } else {
        ProvisionKeepsChecked(s, m, s.procs[q], id, user, currency);
      }
    }
    forall x | x in t.db.accounts && IsWallet(t.db.accounts[x], who, cur) ensures WalletWithin(t, x) {
      if x == id { NewWalletWithin(s, t, id); } else { assert WalletWithin(s, x); }
    }
  }

  lemma CommitKeepsAllWithin(s: State, t: State, p: Proc, who: string, cur: string)
    requires Inv(s) && CeilInv(s, who, cur) && Committing(s, p) && !KeyUsed(s.db.journal, p.Key())
    requires Pays(p.req, who, cur) ==> Small(s, p)
    requires t.db == Apply(s.db, Posted(PostingOf(p))) && t.levels == s.levels
    ensures forall x | x in t.db.accounts && IsWallet(t.db.accounts[x], who, cur) :: WalletWithin(t, x)
  {
    forall x | x in t.db.accounts && IsWallet(t.db.accounts[x], who, cur) ensures WalletWithin(t, x) {
      assert x in s.db.accounts && IsWallet(s.db.accounts[x], who, cur) && WalletWithin(s, x);
      CommitKeepsWithin(s, p, x);
    }
  }

  lemma CommitKeepsCeilInv(s: State, m: Move, who: string, cur: string)
    requires Joint(s, who, cur) && SingleFlight(s, who, cur) && Enabled(s, m) && Commits(s.procs[m.pid], m.choice)
    requires Pays(s.procs[m.pid].req, who, cur) ==> Small(s, s.procs[m.pid])
    ensures CeilInv(Next(s, m), who, cur)
  {
    var p, t := s.procs[m.pid], Next(s, m);
    MoveIsAtomic(s, m);
    TimesKept(s, m);
    MoveKeepsReqs(s, m);
    assert ProcOk(s.db, s.nextId, p) && Committing(s, p);
    CommittedNotPending(s, m);
    CommitKeepsAllWithin(s, t, p, who, cur);
    forall q | 0 <= q < |s.procs| && q != m.pid && Pays(s.procs[q].req, who, cur) ensures Checked(t, s.procs[q]) {
      KeyStaysUsed(s, m, s.procs[q].Key());
      CommitKeepsOtherChecked(s, t, p, s.procs[q]);
    }
  }

  lemma QuietKeepsOtherChecked(s: State, t: State, q: Proc)
    requires Checked(s, q) && s.db == t.db && s.levels == t.levels && s.clock <= t.clock
    ensures Checked(t, q)
  {
    if Pending(t.db, q) && !q.pc.Clock? {
      forall x | x in t.db.accounts && IsWallet(t.db.accounts[x], q.req.from, q.req.currency)
        ensures CheckedOn(t, q, x)
      {
        assert CheckedOn(s, q, x);
      }
    }
  }

  lemma JointStep(s: State, m: Move, who: string, cur: string)
    requires Joint(s, who, cur) && SingleFlight(s, who, cur) && Enabled(s, m)
    requires Commits(s.procs[m.pid], m.choice) && Pays(s.procs[m.pid].req, who, cur) ==> Small(s, s.procs[m.pid])
    ensures Joint(Next(s, m), who, cur)
  {
    MoveKeepsInv(s, m);
    MoveKeepsFundInv(s, m, who, cur);
    match EventOf(s, m) {
      case None => SilentKeepsCeilInv(s, m, who, cur);
      case Some(Provisioned(id, u, c)) => ProvisionKeepsCeilInv(s, m, who, cur, id, u, c);
      case Some(Posted(_)) => CommitKeepsCeilInv(s, m, who, cur);
    }
  }

  lemma InitJoint(s: State, who: string, cur: string)
    requires Init(s) && ServiceOnly(s)
    ensures Joint(s, who, cur)
  {
    InitFundInv(s, who, cur);
    assert forall x | x in s.db.accounts :: s.db.accounts[x].System?;
    forall p | 0 <= p < |s.procs| ensures s.procs[p].pc.Fresh? {
      assert NotBegun(s.procs[p]);
    }
  }

  // ----- over whole runs ----------------------------------------------------------------

  /** No posting debits a wallet of the user in the currency by more than the daily ceiling. */
  ghost predicate DebitsSmall(s: State, who: string, cur: string) {
    forall x, i | x in s.db.accounts && IsWallet(s.db.accounts[x], who, cur) && 0 <= i < |s.db.journal| ::
      DebitOn(s.db.journal[i].entries, x) <= LimitsOf(s, who).dailyMinor
  }

  lemma DebitsWereSmall(s: State, m: Move, who: string, cur: string)
    requires Inv(s) && Enabled(s, m) && DebitsSmall(Next(s, m), who, cur)
    ensures DebitsSmall(s, who, cur)
  {
    TablesKept(s, m);
    var t := Next(s, m);
    forall x, i | x in s.db.accounts && IsWallet(s.db.accounts[x], who, cur) && 0 <= i < |s.db.journal|
      ensures DebitOn(s.db.journal[i].entries, x) <= LimitsOf(s, who).dailyMinor
    {
      assert x in t.db.accounts && IsWallet(t.db.accounts[x], who, cur);
      assert t.db.journal[i] == s.db.journal[i];
    }
  }

  /** A send whose debit is small is a small send. */
  lemma CommittedWasSmall(s: State, m: Move, who: string, cur: string)
    requires Inv(s) && ReqsOk(s) && Enabled(s, m) && Commits(s.procs[m.pid], m.choice)
    requires Pays(s.procs[m.pid].req, who, cur) && DebitsSmall(Next(s, m), who, cur)
    ensures Small(s, s.procs[m.pid])
  {
    var p, t := s.procs[m.pid], Next(s, m);
    MoveIsAtomic(s, m);
    assert ProcOk(s.db, s.nextId, p) && ReqOk(p) && Committing(s, p);
    var x := p.ids[0];
    assert RowIs(s.db, x, p.Entries()[0]);
    CommitDebits(s, p, x, 0, 0);
    assert t.db.journal[|s.db.journal|] == PostingOf(p);
    assert x in t.db.accounts && IsWallet(t.db.accounts[x], who, cur);
  }

  lemma {:induction false} RunKeepsJoint(s: State, moves: seq<Move>, who: string, cur: string)
    requires Joint(s, who, cur) && Guarded(s, moves, who, cur) && DebitsSmall(Run(s, moves), who, cur)
    ensures Joint(Run(s, moves), who, cur)
  {
    if moves != [] {
      var earlier, m := moves[..|moves| - 1], moves[|moves| - 1];
      var t := Run(s, earlier);
      RunKeepsInv(s, earlier);
      if Enabled(t, m) {
        DebitsWereSmall(t, m, who, cur);
        RunKeepsJoint(s, earlier, who, cur);
        assert SingleFlight(t, who, cur) by {
          assert Guarded(s, earlier, who, cur);
        }
        if Commits(t.procs[m.pid], m.choice) && Pays(t.procs[m.pid].req, who, cur) {
          CommittedWasSmall(t, m, who, cur);
        }
        JointStep(t, m, who, cur);
      } else {
        RunKeepsJoint(s, earlier, who, cur);
      }
    }
  }

  /** A 24-hour window meets at most two UTC days. */
  lemma WindowWithinTwoDays(j: seq<Posting>, x: AccountId, start: nat, limit: int)
    requires PositiveRows(j) && WithinDay(j, x, limit)
    ensures DebitsIn(j, x, start, start + Calendar.DAY) <= 2 * limit
  {
    var d := start / Calendar.DAY;
    var a, mid, b := d * Calendar.DAY, (d + 1) * Calendar.DAY, (d + 2) * Calendar.DAY;
    Calendar.DayBounds(start, d);
    assert DebitsIn(j, x, a, mid) <= limit;
    assert b == (d + 1 + 1) * Calendar.DAY && DebitsIn(j, x, mid, b) <= limit;
    DebitsSplit(j, x, start, mid, start + Calendar.DAY);
    DebitsSplit(j, x, a, start, mid);
    DebitsSplit(j, x, mid, start + Calendar.DAY, b);
    DebitsNested(j, x, a, start, a);
    DebitsNested(j, x, start + Calendar.DAY, b, a);
  }

  /** Debits of wallet x in the 24 hours from an instant. */
  function DebitsWithin24h(journal: seq<Posting>, x: AccountId, start: nat): int {
    DebitsIn(journal, x, start, start + Calendar.DAY)
  }

  /** A wallet's debits stay within its user's daily ceiling on every UTC day, within the
      monthly ceiling in every calendar month, and within twice the daily ceiling in every
      24-hour window. */
  ghost predicate WithinCeilings(s: State, x: AccountId)
    requires x in s.db.accounts && s.db.accounts[x].Wallet?
  {
    && WalletWithin(s, x)
    && forall start: nat ::
         DebitsWithin24h(s.db.journal, x, start) <= 2 * LimitsOf(s, s.db.accounts[x].user).dailyMinor
  }

  lemma WithinAllWindows(s: State, x: AccountId)
    requires Inv(s) && x in s.db.accounts && s.db.accounts[x].Wallet? && WalletWithin(s, x)
    ensures WithinCeilings(s, x)
  {
    JournalPositive(s.db, s.nextId);
    var limit := LimitsOf(s, s.db.accounts[x].user).dailyMinor;
    forall start: nat ensures DebitsWithin24h(s.db.journal, x, start) <= 2 * limit {
      WindowWithinTwoDays(s.db.journal, x, start, limit);
    }
  }

  /** A period's debits include each posting's of the period. */
  lemma {:induction false} DebitWithinPeriod(journal: seq<Posting>, x: AccountId, i: nat, from: int, to: int)
    requires PositiveRows(journal) && i < |journal| && from <= journal[i].at < to
    ensures DebitOn(journal[i].entries, x) <= DebitsIn(journal, x, from, to)
  {
    var n := |journal| - 1;
    DebitsNested(journal[..n], x, from, to, from);
    DebitOnNonNegative(journal[n].entries, x);
    if i < n { DebitWithinPeriod(journal[..n], x, i, from, to); }
  }

  lemma WithinDaySmall(s: State, x: AccountId, i: nat, limit: int)
    requires Inv(s) && JournalTimesOk(s) && i < |s.db.journal| && WithinDay(s.db.journal, x, limit)
    ensures DebitOn(s.db.journal[i].entries, x) <= limit
  {
    JournalPositive(s.db, s.nextId);
    var at: nat := s.db.journal[i].at;
    var d := at / Calendar.DAY;
    Calendar.DayBounds(at, d);
    DebitWithinPeriod(s.db.journal, x, i, d * Calendar.DAY, (d + 1) * Calendar.DAY);
  }

  lemma {:induction false} RunKeepsTimes(s: State, moves: seq<Move>)
    requires Inv(s) && TimesOk(s)
    ensures Inv(Run(s, moves)) && TimesOk(Run(s, moves))
  {
    if moves != [] {
      var t := Run(s, moves[..|moves| - 1]);
      RunKeepsTimes(s, moves[..|moves| - 1]);
      if Enabled(t, moves[|moves| - 1]) {
        TimesKept(t, moves[|moves| - 1]);
        MoveKeepsInv(t, moves[|moves| - 1]);
      }
    }
  }

  /** A user has one wallet in a currency. */
  lemma OnlyWallet(s: State, x: AccountId)
    requires Inv(s) && x in s.db.accounts && s.db.accounts[x].Wallet?
    ensures DebitsSmall(s, s.db.accounts[x].user, s.db.accounts[x].currency) <==>
      forall i | 0 <= i < |s.db.journal| ::
        DebitOn(s.db.journal[i].entries, x) <= LimitsOf(s, s.db.accounts[x].user).dailyMinor
  {
    assert IsWallet(s.db.accounts[x], s.db.accounts[x].user, s.db.accounts[x].currency);
  }

  /** Spending ceilings, exactly: in every run in which its own user has one send at a time
      in its currency, a wallet is within its ceilings if and only if no single posting
      debits it by more than the daily one. */
  lemma CeilingsIff(s: State, moves: seq<Move>, x: AccountId)
    requires Init(s) && ServiceOnly(s)
    requires x in Run(s, moves).db.accounts && Run(s, moves).db.accounts[x].Wallet?
    requires var a := Run(s, moves).db.accounts[x]; Guarded(s, moves, a.user, a.currency)
    ensures var t := Run(s, moves);
      WithinCeilings(t, x) <==>
      forall i | 0 <= i < |t.db.journal| ::
        DebitOn(t.db.journal[i].entries, x) <= LimitsOf(t, t.db.accounts[x].user).dailyMinor
  {
    var t := Run(s, moves);
    var who, cur := t.db.accounts[x].user, t.db.accounts[x].currency;
    InitJoint(s, who, cur);
    RunKeepsTimes(s, moves);
    OnlyWallet(t, x);
    if DebitsSmall(t, who, cur) {
      RunKeepsJoint(s, moves, who, cur);
      WithinAllWindows(t, x);
    }
    if WithinCeilings(t, x) {
      forall i | 0 <= i < |t.db.journal| ensures DebitOn(t.db.journal[i].entries, x) <= LimitsOf(t, who).dailyMinor {
        WithinDaySmall(t, x, i, LimitsOf(t, who).dailyMinor);
      }
    }
  }

  // ----- only an overflow lets a large send through --------------------------------------------

  /** Sends of the user past the day check are small. */
  ghost predicate PastSmall(s: State, who: string, cur: string) {
    forall p | 0 <= p < |s.procs| && Pays(s.procs[p].req, who, cur) && PastDay(s.procs[p]) :: Small(s, s.procs[p])
  }

  predicate PastDay(p: Proc) {
    p.pc.Month? || (PastChecks(p) && !p.pc.Done?)
  }

  /** The exact daily comparison lets only small sends pass. */
  lemma MoverSmall(s: State, m: Move, who: string, cur: string)
    requires Inv(s) && ReqsOk(s) && PastSmall(s, who, cur) && DaySumsFit(s, who, cur) && Enabled(s, m)
    ensures Pays(s.procs[m.pid].req, who, cur) && PastDay(Next(s, m).procs[m.pid]) ==> Small(s, s.procs[m.pid])
  {
    var p := s.procs[m.pid];
    assert ProcOk(s.db, s.nextId, p);
    if p.pc.Day? && Pays(p.req, who, cur) {
      assert DaySumFits(s, p);
      var day := Calendar.StartOfDay(p.now);
      OutgoingMonotone(s.db, s.nextId, p.req.from, p.req.currency, day, day);
    }
  }

  lemma StepKeepsSmall(s: State, m: Move, who: string, cur: string)
    requires Inv(s) && ReqsOk(s) && PastSmall(s, who, cur) && DebitsSmall(s, who, cur)
    requires DaySumsFit(s, who, cur) && Enabled(s, m)
    ensures ReqsOk(Next(s, m)) && PastSmall(Next(s, m), who, cur) && DebitsSmall(Next(s, m), who, cur)
  {
    var p, t := s.procs[m.pid], Next(s, m);
    MoveKeepsReqs(s, m);
    MoverSmall(s, m, who, cur);
    NewDebitSmall(s, m, who, cur);
  }

  lemma NewDebitSmall(s: State, m: Move, who: string, cur: string)
    requires Inv(s) && ReqsOk(s) && PastSmall(s, who, cur) && DebitsSmall(s, who, cur) && Enabled(s, m)
    ensures DebitsSmall(Next(s, m), who, cur)
  {
    var p, t := s.procs[m.pid], Next(s, m);
    MoveIsAtomic(s, m);
    assert ProcOk(s.db, s.nextId, p) && ReqOk(p);
    forall x, i | x in t.db.accounts && IsWallet(t.db.accounts[x], who, cur) && 0 <= i < |t.db.journal|
      ensures DebitOn(t.db.journal[i].entries, x) <= LimitsOf(t, who).dailyMinor
    {
      if i == |s.db.journal| {
        assert Committing(s, p);
        CommitDebits(s, p, x, 0, 0);
      } else if x !in s.db.accounts {
        assert PostingOk(s.db.accounts, s.db.journal[i]);
        forall k | 0 <= k < |s.db.journal[i].entries| ensures s.db.journal[i].entries[k].account != x {
          assert EntryOk(s.db.accounts, s.db.journal[i].entries[k]);
        }
        NoRowNoDebit(s.db.journal[i].entries, x);
      } else {
        assert IsWallet(s.db.accounts[x], who, cur);
      }
    }
  }

  /** In no state of the run is a send of the user about to overflow its daily sum. */
  ghost predicate NoOverflow(s: State, moves: seq<Move>, who: string, cur: string) {
    DaySumsFit(Run(s, moves), who, cur) && (moves == [] || NoOverflow(s, moves[..|moves| - 1], who, cur))
  }

  lemma {:induction false} RunKeepsSmall(s: State, moves: seq<Move>, who: string, cur: string)
    requires Inv(s) && ReqsOk(s) && PastSmall(s, who, cur) && DebitsSmall(s, who, cur)
    requires moves != [] ==> NoOverflow(s, moves[..|moves| - 1], who, cur)
    ensures ReqsOk(Run(s, moves)) && PastSmall(Run(s, moves), who, cur) && DebitsSmall(Run(s, moves), who, cur)
  {
    if moves != [] {
      var t := Run(s, moves[..|moves| - 1]);
      RunKeepsInv(s, moves[..|moves| - 1]);
      RunKeepsSmall(s, moves[..|moves| - 1], who, cur);
      if Enabled(t, moves[|moves| - 1]) { StepKeepsSmall(t, moves[|moves| - 1], who, cur); }
    }
  }

  lemma InitSmall(s: State, who: string, cur: string)
    requires Init(s) && ServiceOnly(s)
    ensures Joint(s, who, cur) && PastSmall(s, who, cur) && DebitsSmall(s, who, cur)
  {
    InitJoint(s, who, cur);
    forall p | 0 <= p < |s.procs| ensures s.procs[p].pc.Fresh? {
      assert NotBegun(s.procs[p]);
    }
  }

  /** So they hold unless a daily sum of the wallet's own user overflows. */
  lemma CeilingsUnlessOverflow(s: State, moves: seq<Move>, x: AccountId)
    requires Init(s) && ServiceOnly(s)
    requires x in Run(s, moves).db.accounts && Run(s, moves).db.accounts[x].Wallet?
    requires var a := Run(s, moves).db.accounts[x];
      Guarded(s, moves, a.user, a.currency) && NoOverflow(s, moves, a.user, a.currency)
    ensures WithinCeilings(Run(s, moves), x)
  {
    var t := Run(s, moves);
    var who, cur := t.db.accounts[x].user, t.db.accounts[x].currency;
    InitSmall(s, who, cur);
    RunKeepsSmall(s, moves, who, cur);
    RunKeepsJoint(s, moves, who, cur);
    assert WalletWithin(t, x);
    WithinAllWindows(t, x);
  }

  // ----- what keeps the daily sum in range ---------------------------------------------------

  /** The user's sends at the day check leave room in int64 for the daily ceiling. */
  ghost predicate Modest(s: State, who: string, cur: string) {
    forall p | 0 <= p < |s.procs| && Pays(s.procs[p].req, who, cur) && s.procs[p].pc.Day? && who in s.levels ::
      s.procs[p].req.amountMinor <= MAX - Kyc.LimitsFor(s.levels[who]).dailyMinor
  }

  ghost predicate AlwaysModest(s: State, moves: seq<Move>, who: string, cur: string) {
    Modest(Run(s, moves), who, cur) && (moves == [] || AlwaysModest(s, moves[..|moves| - 1], who, cur))
  }

  /** Any pending send has a wallet, with what its checks established. */
  lemma PendingWallet(s: State, p: nat, who: string, cur: string) returns (x: AccountId)
    requires Joint(s, who, cur) && p < |s.procs| && Pays(s.procs[p].req, who, cur)
    requires s.procs[p].pc.Day? || s.procs[p].pc.Month?
    ensures x in s.db.accounts && IsWallet(s.db.accounts[x], who, cur) && WalletWithin(s, x)
    ensures CheckedOn(s, s.procs[p], x) && 0 < s.procs[p].req.amountMinor <= s.db.accounts[x].cached
  {
    assert Funded(s.db, s.procs[p]) && Checked(s, s.procs[p]) && ReqOk(s.procs[p]);
    x :| x in s.db.accounts && IsWallet(s.db.accounts[x], who, cur);
  }

  lemma ModestFits(s: State, who: string, cur: string)
    requires Joint(s, who, cur) && Modest(s, who, cur)
    ensures DaySumsFit(s, who, cur)
  {
    forall p | 0 <= p < |s.procs| && Pays(s.procs[p].req, who, cur) && s.procs[p].pc.Day?
      ensures DaySumFits(s, s.procs[p])
    {
      var x := PendingWallet(s, p, who, cur);
      SumsWithinCeilings(s, s.procs[p], x);
    }
  }

  lemma {:induction false} ModestNeverOverflows(s: State, moves: seq<Move>, who: string, cur: string)
    requires Init(s) && ServiceOnly(s) && Guarded(s, moves, who, cur) && AlwaysModest(s, moves, who, cur)
    ensures NoOverflow(s, moves, who, cur) && Joint(Run(s, moves), who, cur) && PastSmall(Run(s, moves), who, cur)
  {
    if moves != [] { ModestNeverOverflows(s, moves[..|moves| - 1], who, cur); }
    InitSmall(s, who, cur);
    RunKeepsSmall(s, moves, who, cur);
    RunKeepsJoint(s, moves, who, cur);
    ModestFits(Run(s, moves), who, cur);
  }

  /** No send of the user in the currency asks for more than int64 less the daily ceiling. */
  ghost predicate SmallSends(s: State, who: string, cur: string) {
    forall p | 0 <= p < |s.procs| && Pays(s.procs[p].req, who, cur) && who in s.levels ::
      s.procs[p].req.amountMinor <= MAX - Kyc.LimitsFor(s.levels[who]).dailyMinor
  }

  lemma {:induction false} SmallSendsAreModest(s: State, moves: seq<Move>, who: string, cur: string)
    requires Inv(s) && ReqsOk(s) && SmallSends(s, who, cur)
    ensures AlwaysModest(s, moves, who, cur) && ReqsOk(Run(s, moves)) && SmallSends(Run(s, moves), who, cur)
  {
    if moves != [] {
      var t := Run(s, moves[..|moves| - 1]);
      SmallSendsAreModest(s, moves[..|moves| - 1], who, cur);
      RunKeepsInv(s, moves[..|moves| - 1]);
      if Enabled(t, moves[|moves| - 1]) { MoveKeepsReqs(t, moves[|moves| - 1]); }
    }
  }

  /** The ceilings of a user whose sends are all of that size need nothing of other users,
      nor of top-ups. */
  lemma SmallSendsKeepCeilings(s: State, moves: seq<Move>, x: AccountId)
    requires Init(s) && ServiceOnly(s)
    requires x in Run(s, moves).db.accounts && Run(s, moves).db.accounts[x].Wallet?
    requires var a := Run(s, moves).db.accounts[x];
      Guarded(s, moves, a.user, a.currency) && SmallSends(s, a.user, a.currency)
    ensures WithinCeilings(Run(s, moves), x)
  {
    var a := Run(s, moves).db.accounts[x];
    InitFundInv(s, a.user, a.currency);
    SmallSendsAreModest(s, moves, a.user, a.currency);
    ModestNeverOverflows(s, moves, a.user, a.currency);
    CeilingsUnlessOverflow(s, moves, x);
  }

  /** The currency's top-ups leave room in int64 for the user's daily ceiling. */
  ghost predicate TopUpsBounded(s: State, who: string, cur: string) {
    who in s.levels ==> TopUps(s.db.accounts, s.db.journal, cur) <= MAX - Kyc.LimitsFor(s.levels[who]).dailyMinor
  }

  lemma TopUpsGrow(s: State, m: Move, who: string, cur: string)
    requires Inv(s) && ReqsOk(s) && Enabled(s, m) && TopUpsBounded(Next(s, m), who, cur)
    ensures TopUpsBounded(s, who, cur)
  {
    MoveIsAtomic(s, m);
    var p, t := s.procs[m.pid], Next(s, m);
    assert ProcOk(s.db, s.nextId, p) && ReqOk(p);
    if Commits(p, m.choice) {
      PostingAddsTopUps(s.db, s.nextId, p, cur);
    } else {
      TopUpsFrame(s.db.accounts, t.db.accounts, s.db.journal, cur);
    }
  }

  /** No balance exceeds the currency's top-ups, so no funded send does. */
  lemma TopUpsModest(s: State, moves: seq<Move>, who: string, cur: string)
    requires Init(s) && ServiceOnly(s) && AllGuarded(s, moves, cur) && TopUpsBounded(Run(s, moves), who, cur)
    ensures Modest(Run(s, moves), who, cur)
  {
    var t := Run(s, moves);
    InitFundInv(s, who, cur);
    assert Guarded(s, moves, who, cur);
    RunKeepsFundInv(s, moves, who, cur);
    CurrencyNonNegative(s, moves, cur);
    WalletsHoldTopUps(s, moves, cur);
    forall p | 0 <= p < |t.procs| && Pays(t.procs[p].req, who, cur) && t.procs[p].pc.Day? && who in t.levels
      ensures t.procs[p].req.amountMinor <= MAX - Kyc.LimitsFor(t.levels[who]).dailyMinor
    {
      assert Funded(t.db, t.procs[p]);
      var x :| x in t.db.accounts && IsWallet(t.db.accounts[x], who, cur);
      MemberWithinSum(Balances(t.db.accounts, cur), x);
    }
  }

  lemma {:induction false} TopUpsAlwaysModest(s: State, moves: seq<Move>, who: string, cur: string)
    requires Init(s) && ServiceOnly(s) && AllGuarded(s, moves, cur) && TopUpsBounded(Run(s, moves), who, cur)
    ensures AlwaysModest(s, moves, who, cur)
  {
    TopUpsModest(s, moves, who, cur);
    if moves != [] {
      var earlier, m := moves[..|moves| - 1], moves[|moves| - 1];
      var t := Run(s, earlier);
      InitInv(s);
      InitSolvency(s);
      RunKeepsInv(s, earlier);
      RunKeepsSolvency(s, earlier);
      if Enabled(t, m) { TopUpsGrow(t, m, who, cur); }
      forall user ensures Guarded(s, earlier, user, cur) {
        assert Guarded(s, moves, user, cur);
      }
      TopUpsAlwaysModest(s, earlier, who, cur);
    }
  }

  /** With every sender of the wallet's currency guarded, the ceilings hold while the
      top-ups of that currency leave room for that user's daily ceiling. */
  lemma SpendingCeilings(s: State, moves: seq<Move>, x: AccountId)
    requires Init(s) && ServiceOnly(s)
    requires x in Run(s, moves).db.accounts && Run(s, moves).db.accounts[x].Wallet?
    requires var a := Run(s, moves).db.accounts[x];
      AllGuarded(s, moves, a.currency) && TopUpsBounded(Run(s, moves), a.user, a.currency)
    ensures WithinCeilings(Run(s, moves), x)
  {
    var a := Run(s, moves).db.accounts[x];
    assert Guarded(s, moves, a.user, a.currency);
    TopUpsAlwaysModest(s, moves, a.user, a.currency);
    ModestNeverOverflows(s, moves, a.user, a.currency);
    CeilingsUnlessOverflow(s, moves, x);
  }

  /** And no check of that user in that currency ever computes a wrapped sum, whatever its
      key; the monthly sum is computed only past the daily check. */
  lemma ChecksNeverWrap(s: State, moves: seq<Move>, p: nat)
    requires Init(s) && ServiceOnly(s) && p < |Run(s, moves).procs|
    requires var q := Run(s, moves).procs[p];
      && q.req.Send? && (q.pc.Day? || q.pc.Month?)
      && AllGuarded(s, moves, q.req.currency) && TopUpsBounded(Run(s, moves), q.req.from, q.req.currency)
    ensures var t := Run(s, moves);
      DaySumFits(t, t.procs[p]) && (t.procs[p].pc.Month? ==> MonthSumFits(t, t.procs[p]))
  {
    var t := Run(s, moves);
    var who, cur := t.procs[p].req.from, t.procs[p].req.currency;
    assert Guarded(s, moves, who, cur);
    TopUpsAlwaysModest(s, moves, who, cur);
    ModestNeverOverflows(s, moves, who, cur);
    var x := PendingWallet(t, p, who, cur);
    if t.procs[p].pc.Month? { SmallSumsFit(t, t.procs[p], x); }
  }
}
