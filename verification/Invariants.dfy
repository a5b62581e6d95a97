/** What every interleaving of posting calls keeps true of the shared tables and
    of each call's private state. */
module Invariants {
  import opened Int64
  import opened Ledger
  import opened Protocol

  // ----- the tables --------------------------------------------------------------

  /** uq_user_wallet: one wallet per (user, currency). */
  ghost predicate WalletsUnique(accounts: map<AccountId, Account>) {
    forall x, y | x in accounts && y in accounts && accounts[x].Wallet?
                  && IsWallet(accounts[y], accounts[x].user, accounts[x].currency) :: x == y
  }

  ghost predicate CacheOk(db: Db) {
    forall x | x in db.accounts && db.accounts[x].Wallet? ::
      InRange(db.accounts[x].cached) && db.accounts[x].cached == CacheSum(db.journal, x)
  }

  ghost predicate EntryOk(accounts: map<AccountId, Account>, e: JournalEntry) {
    && e.amountMinor > 0 && !e.direction.Unknown?
    && e.account in accounts
    && (accounts[e.account].Wallet? ==> accounts[e.account].currency == e.currency)
  }

  ghost predicate PostingOk(accounts: map<AccountId, Account>, p: Posting) {
    && Balanced(p.entries)
    && forall k | 0 <= k < |p.entries| :: EntryOk(accounts, p.entries[k])
  }

  ghost predicate JournalOk(db: Db, nextId: nat) {
    && (forall i | 0 <= i < |db.journal| :: PostingOk(db.accounts, db.journal[i]) && db.journal[i].id < nextId)
    && (forall i, j | 0 <= i < j < |db.journal| ::
          db.journal[i].key != db.journal[j].key && db.journal[i].id != db.journal[j].id)
  }

  // ----- one call -------------------------------------------------------------------

  ghost predicate Resolves(db: Db, entries: seq<EntryInput>, ids: seq<AccountId>) {
    && |ids| <= |entries|
    && forall i | 0 <= i < |ids| :: RowIs(db, ids[i], entries[i])
  }

  ghost predicate Buffered(db: Db, p: Proc)
    requires |p.ids| == |p.Entries()|
  {
    && p.held == p.Wallets() && p.pending <= p.held && p.buffer.Keys == p.held - p.pending
    && p.inserted <= |p.Entries()| && (p.inserted < |p.Entries()| ==> p.pending == p.held)
    && !KeyUsed(db.journal, p.Key())
    && forall x | x in p.buffer ::
         && x in db.accounts && db.accounts[x].Wallet?
         && InRange(p.buffer[x]) && p.buffer[x] == db.accounts[x].cached + Delta(p.Rows(), x)
  }

  ghost predicate LockedInOrder(p: Proc)
    requires |p.ids| == |p.Entries()|
  {
    && p.todo !! p.held && p.todo + p.held == p.Wallets()
    && forall h, t | h in p.held && t in p.todo :: h < t
  }

  ghost predicate ProcOk(db: Db, nextId: nat, p: Proc) {
    && Resolves(db, p.Entries(), p.ids)
    && (!p.pc.Locking? && !p.pc.Writing? ==> p.held == {})
    && match p.pc
       case Fresh => p.ids == []
       case Balance => p.ids == [] && p.req.Send?
       case Clock => p.ids == [] && p.req.Send?
       case Day => p.ids == [] && p.req.Send?
       case Month => p.ids == [] && p.req.Send?
       case Resolving => Accepts(InputOf(p.req)) && |p.ids| < |p.Entries()|
       case Provisioning =>
         Accepts(InputOf(p.req)) && |p.ids| < |p.Entries()| && !p.Entries()[|p.ids|].account.IsSystem()
       case Reselecting =>
         Accepts(InputOf(p.req)) && |p.ids| < |p.Entries()| && !p.Entries()[|p.ids|].account.IsSystem()
       case Ready => Accepts(InputOf(p.req)) && |p.ids| == |p.Entries()| && p.attempt < MAX_RETRIES
       case Locking =>
         Accepts(InputOf(p.req)) && |p.ids| == |p.Entries()| && p.attempt < MAX_RETRIES && LockedInOrder(p)
       case Writing =>
         && Accepts(InputOf(p.req)) && |p.ids| == |p.Entries()| && p.attempt < MAX_RETRIES
         && Buffered(db, p) && p.postingId < nextId
       case Failed => Accepts(InputOf(p.req)) && |p.ids| == |p.Entries()| && p.attempt < MAX_RETRIES
       case Done => p.outcome.Success? ==> IsPosting(db.journal, p.outcome.id, p.Key())
  }

  // ----- between calls ------------------------------------------------------------

  ghost predicate Apart(p: Proc, q: Proc) {
    && p.held !! q.held
    && (p.pc.Writing? && q.pc.Writing? ==> p.Key() != q.Key() && p.postingId != q.postingId)
  }

  /** Row locks exclude, and so do uncommitted idempotency keys. */
  ghost predicate Exclusive(procs: seq<Proc>) {
    forall p, q | 0 <= p < |procs| && 0 <= q < |procs| && p != q :: Apart(procs[p], procs[q])
  }

  ghost predicate FreshIds(s: State) {
    forall p, i | 0 <= p < |s.procs| && 0 <= i < |s.db.journal| && s.procs[p].pc.Writing? ::
      s.procs[p].postingId != s.db.journal[i].id
  }

  ghost predicate Inv(s: State) {
    && WalletsUnique(s.db.accounts)
    && CacheOk(s.db)
    && JournalOk(s.db, s.nextId)
    && (forall p | 0 <= p < |s.procs| :: ProcOk(s.db, s.nextId, s.procs[p]))
    && Exclusive(s.procs)
    && FreshIds(s)
  }

  // ----- how the tables move ----------------------------------------------------

  /** Accounts are never removed or re-identified; the journal only grows. */
  ghost predicate Grows(db: Db, db': Db) {
    && db.journal <= db'.journal
    && forall x | x in db.accounts ::
         && x in db'.accounts
         && match db.accounts[x]
            case System(_, _) => db'.accounts[x] == db.accounts[x]
            case Wallet(u, c, _) => IsWallet(db'.accounts[x], u, c)
  }

  /** Cached balances outside a set of rows are untouched. */
  ghost predicate SameCacheExcept(db: Db, db': Db, rows: set<AccountId>) {
    forall x | x in db.accounts && x in db'.accounts && x !in rows :: db'.accounts[x] == db.accounts[x]
  }

  /** The posting a call would commit. */
  ghost function PostingOf(p: Proc): Posting
    requires |p.ids| == |p.Entries()|
  {
    Posting(p.postingId, p.Key(), p.Rows(), p.at)
  }

  lemma WalletIdsAreWallets(db: Db, entries: seq<EntryInput>, ids: seq<AccountId>, x: AccountId)
    requires |ids| == |entries| && Resolves(db, entries, ids)
    ensures x in WalletIds(entries, ids) ==> x in db.accounts && db.accounts[x].Wallet?
    ensures x in db.accounts && db.accounts[x].Wallet? && x !in WalletIds(entries, ids) ==>
              Delta(Resolved(entries, ids), x) == 0
  {
    var rows := Resolved(entries, ids);
    if x in WalletIds(entries, ids) {
      var i :| 0 <= i < |entries| && !entries[i].account.IsSystem() && ids[i] == x;
      assert RowIs(db, ids[i], entries[i]);
    } else if x in db.accounts && db.accounts[x].Wallet? {
      forall k | 0 <= k < |rows| ensures rows[k].account != x {
        assert RowIs(db, ids[k], entries[k]);
      }
      UntouchedDelta(rows, x);
    }
  }

  lemma WalletRows(db: Db, p: Proc, x: AccountId)
    requires |p.ids| == |p.Entries()| && Resolves(db, p.Entries(), p.ids)
    ensures x in p.Wallets() ==> x in db.accounts && db.accounts[x].Wallet?
    ensures x in db.accounts && db.accounts[x].Wallet? && x !in p.Wallets() ==> Delta(p.Rows(), x) == 0
  {
    WalletIdsAreWallets(db, p.Entries(), p.ids, x);
  }

  /** A wallet's committed value after the transaction is its value before plus
      the posting's delta, whether or not the posting names it. */
  lemma InstalledValue(db: Db, p: Proc, x: AccountId)
    requires CacheOk(db)
    requires |p.ids| == |p.Entries()| && Resolves(db, p.Entries(), p.ids) && Buffered(db, p) && p.pending == {}
    requires x in db.accounts && db.accounts[x].Wallet?
    ensures InRange(db.accounts[x].cached + Delta(p.Rows(), x))
    ensures (if x in p.buffer then p.buffer[x] else db.accounts[x].cached) == db.accounts[x].cached + Delta(p.Rows(), x)
  {
    WalletRows(db, p, x);
  }

  /** Lock exclusivity at work: what a transaction installs is the atomic posting. */
  lemma CommitIsApply(db: Db, p: Proc)
    requires CacheOk(db)
    requires |p.ids| == |p.Entries()| && Resolves(db, p.Entries(), p.ids) && Buffered(db, p)
    requires p.inserted == |p.Entries()| && p.pending == {}
    ensures Commit(db, p) == Apply(db, Posted(PostingOf(p)))
    ensures Fits(db.accounts, p.Rows())
  {
    assert p.Rows()[..p.inserted] == p.Rows();
    var installed, posted := Commit(db, p).accounts, PostAccounts(db.accounts, p.Rows());
    forall x | x in db.accounts ensures installed[x] == posted[x] {
      if db.accounts[x].Wallet? { InstalledValue(db, p, x); }
    }
    assert installed == posted;
    forall x | x in db.accounts && db.accounts[x].Wallet?
      ensures InRange(db.accounts[x].cached + Delta(p.Rows(), x))
    {
      InstalledValue(db, p, x);
    }
  }

  /** Every entry of a resolved, well-formed posting is a valid journal row. */
  lemma RowsOk(db: Db, entries: seq<EntryInput>, ids: seq<AccountId>)
    requires |ids| == |entries| && Resolves(db, entries, ids) && WellFormed(entries)
    ensures forall k | 0 <= k < |entries| :: EntryOk(db.accounts, Resolved(entries, ids)[k])
  {
    forall k | 0 <= k < |entries| ensures EntryOk(db.accounts, Resolved(entries, ids)[k]) {
      assert WellFormedEntry(entries[k]);
      assert RowIs(db, ids[k], entries[k]);
    }
  }
}
