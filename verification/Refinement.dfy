/** Whole-run results for the posting engine: refinement to the atomic ledger,
    order independence, agreement of cache and journal, at-most-once posting. */
module Refinement {
  import opened Int64
  import opened Ledger
  import opened Protocol
  import opened Invariants
  import opened Preservation

  /** The atomic events of a run, in commit order. */
  ghost function Events(s: State, moves: seq<Move>): seq<Event> {
    if moves == [] then []
    else
      var t := Run(s, moves[..|moves| - 1]);
      var m := moves[|moves| - 1];
      Events(s, moves[..|moves| - 1]) + if Enabled(t, m) && EventOf(t, m).Some? then [EventOf(t, m).value] else []
  }

  function PostingsIn(evs: seq<Event>): seq<Posting> {
    if evs == [] then []
    else
      PostingsIn(evs[..|evs| - 1])
      + match evs[|evs| - 1] case Posted(p) => [p] case Provisioned(_, _, _) => []
  }

  /** Every interleaving, with every pattern of failures, reaches the tables that
      the sequential ledger reaches by the same events one at a time; the journal
      lists exactly those postings in that order. */
  lemma {:induction false} RunRefinesAtomicLedger(s: State, moves: seq<Move>)
    requires Inv(s)
    ensures ApplyAll(s.db, Events(s, moves)) == Some(Run(s, moves).db)
    ensures Run(s, moves).db.journal == s.db.journal + PostingsIn(Events(s, moves))
  {
    if moves != [] {
      var earlier := moves[..|moves| - 1];
      var t, m := Run(s, earlier), moves[|moves| - 1];
      RunRefinesAtomicLedger(s, earlier);
      RunKeepsInv(s, earlier);
      if Enabled(t, m) {
        MoveIsAtomic(t, m);
        var evs := Events(s, moves);
        if EventOf(t, m).Some? {
          assert evs[..|evs| - 1] == Events(s, earlier);
        } else {
          assert evs == Events(s, earlier);
        }
      } else {
        assert Events(s, moves) == Events(s, earlier);
      }
    }
  }

  /** The final accounts with every cached balance reset to zero. */
  function Zeroed(accounts: map<AccountId, Account>): map<AccountId, Account> {
    map x | x in accounts ::
      match accounts[x]
      case Wallet(u, c, _) => Wallet(u, c, 0)
      case System(_, _) => accounts[x]
  }

  /** Replaying the committed postings in any other order that stays in bigint
      range rebuilds the very same balances. */
  lemma AnyCommitOrder(s: State, moves: seq<Move>, order: seq<Posting>)
    requires Init(s)
    requires multiset(order) == multiset(Run(s, moves).db.journal)
    requires PostAll(Zeroed(Run(s, moves).db.accounts), order).Some?
    ensures PostAll(Zeroed(Run(s, moves).db.accounts), order).value == Run(s, moves).db.accounts
  {
    var db := Run(s, moves).db;
    InitInv(s);
    RunKeepsInv(s, moves);
    PostAllBalances(Zeroed(db.accounts), order);
    var rebuilt := PostAll(Zeroed(db.accounts), order).value;
    forall x | x in db.accounts ensures rebuilt[x] == db.accounts[x] {
      CacheSumOfMultiset(order, db.journal, x);
    }
    assert rebuilt == db.accounts;
  }

  // ----- cache and journal ---------------------------------------------------------

  /** wallet_journal_drift: wallets whose cache disagrees with the journal. */
  ghost function DriftRows(db: Db): set<AccountId> {
    set x | x in db.accounts && db.accounts[x].Wallet? && db.accounts[x].cached != JournalSum(db.journal, x)
  }

  lemma CacheAgreesModulo(s: State, moves: seq<Move>, x: AccountId)
    requires Init(s)
    requires x in Run(s, moves).db.accounts && Run(s, moves).db.accounts[x].Wallet?
    ensures Congruent(Run(s, moves).db.accounts[x].cached, JournalSum(Run(s, moves).db.journal, x))
  {
    InitInv(s);
    RunKeepsInv(s, moves);
    CacheCongruentToJournal(Run(s, moves).db.journal, x);
  }

  /** No single posting moves 2^63 or more, gross, on one wallet. */
  ghost predicate SmallPostings(db: Db) {
    forall i, x | 0 <= i < |db.journal| && x in db.accounts && db.accounts[x].Wallet? ::
      GrossOn(db.journal[i].entries, x) < TWO63
  }

  lemma NoDrift(s: State, moves: seq<Move>)
    requires Init(s) && SmallPostings(Run(s, moves).db)
    ensures DriftRows(Run(s, moves).db) == {}
  {
    var db := Run(s, moves).db;
    InitInv(s);
    RunKeepsInv(s, moves);
    forall x | x in db.accounts && db.accounts[x].Wallet? ensures db.accounts[x].cached == JournalSum(db.journal, x) {
      forall i | 0 <= i < |db.journal|
        ensures forall k | 0 <= k < |db.journal[i].entries| :: db.journal[i].entries[k].amountMinor > 0
      {
        assert PostingOk(db.accounts, db.journal[i]);
      }
      SmallPostingsKeepCacheExact(db.journal, x);
    }
  }

  /** Exactly when a committed posting keeps a drift-free ledger drift-free: its
      net on every wallet fits int64. */
  lemma CommitDriftsIff(s: State, m: Move)
    requires Inv(s) && Enabled(s, m) && Commits(s.procs[m.pid], m.choice)
    requires DriftRows(s.db) == {}
    ensures DriftRows(Next(s, m).db) == {} <==>
              forall x | x in s.db.accounts && s.db.accounts[x].Wallet? :: InRange(OnAccount(s.procs[m.pid].Rows(), x))
  {
    var db, db', posting := s.db, Next(s, m).db, PostingOf(s.procs[m.pid]);
    MoveIsAtomic(s, m);
    MoveKeepsInv(s, m);
    forall x | x in db.accounts && db.accounts[x].Wallet?
      ensures x !in DriftRows(db') <==> InRange(OnAccount(posting.entries, x))
    {
      assert x !in DriftRows(db);
      CacheStaysExactIff(db.journal, posting, x);
    }
  }

  // ----- conservation -----------------------------------------------------------

  function JournalNet(journal: seq<Posting>, currency: string): int {
    if journal == [] then 0
    else JournalNet(journal[..|journal| - 1], currency) + NetIn(journal[|journal| - 1].entries, currency)
  }

  lemma {:induction false} BalancedJournalNetsZero(journal: seq<Posting>, currency: string)
    requires forall i | 0 <= i < |journal| :: Balanced(journal[i].entries)
    ensures JournalNet(journal, currency) == 0
  {
    if journal != [] {
      BalancedJournalNetsZero(journal[..|journal| - 1], currency);
    }
  }

  /** Every committed posting balances exactly, whatever wrapped in memory, so
      every currency nets to zero over the whole journal. */
  lemma Conservation(s: State, moves: seq<Move>, currency: string)
    requires Init(s)
    ensures forall i | 0 <= i < |Run(s, moves).db.journal| :: Balanced(Run(s, moves).db.journal[i].entries)
    ensures JournalNet(Run(s, moves).db.journal, currency) == 0
  {
    InitInv(s);
    RunKeepsInv(s, moves);
    var db := Run(s, moves).db;
    forall i | 0 <= i < |db.journal| ensures Balanced(db.journal[i].entries) {
      assert PostingOk(db.accounts, db.journal[i]);
    }
    BalancedJournalNetsZero(db.journal, currency);
  }

  // ----- at most once -------------------------------------------------------------

  /** How many moves of a run commit a posting under a key. */
  ghost function CommitCount(s: State, moves: seq<Move>, key: string): nat {
    if moves == [] then 0
    else
      var t := Run(s, moves[..|moves| - 1]);
      var m := moves[|moves| - 1];
      CommitCount(s, moves[..|moves| - 1], key)
      + if Enabled(t, m) && Commits(t.procs[m.pid], m.choice) && t.procs[m.pid].Key() == key then 1 else 0
  }

  lemma KeysStay(s: State, moves: seq<Move>, key: string)
    requires Inv(s) && KeyUsed(s.db.journal, key)
    ensures KeyUsed(Run(s, moves).db.journal, key)
  {
    RunRefinesAtomicLedger(s, moves);
    var i :| 0 <= i < |s.db.journal| && s.db.journal[i].key == key;
    assert Run(s, moves).db.journal[i] == s.db.journal[i];
  }

  lemma {:induction false} CommitsOncePerKey(s: State, moves: seq<Move>, key: string)
    requires Inv(s)
    ensures KeyUsed(s.db.journal, key) ==> CommitCount(s, moves, key) == 0
    ensures CommitCount(s, moves, key) <= 1
    ensures CommitCount(s, moves, key) == 1 ==> KeyUsed(Run(s, moves).db.journal, key)
    ensures KeyUsed(Run(s, moves).db.journal, key) ==> KeyUsed(s.db.journal, key) || CommitCount(s, moves, key) == 1
  {
    if moves != [] {
      var earlier := moves[..|moves| - 1];
      var t, m := Run(s, earlier), moves[|moves| - 1];
      CommitsOncePerKey(s, earlier, key);
      RunKeepsInv(s, earlier);
      if Enabled(t, m) {
        if KeyUsed(s.db.journal, key) { KeysStay(s, earlier, key); }
        KeysAfter(t, m, key);
      }
    }
  }

  /** A key enters the journal exactly by a commit under that key. */
  lemma KeysAfter(s: State, m: Move, key: string)
    requires Inv(s) && Enabled(s, m)
    ensures KeyUsed(Next(s, m).db.journal, key) <==>
              KeyUsed(s.db.journal, key) || (Commits(s.procs[m.pid], m.choice) && s.procs[m.pid].Key() == key)
    ensures Commits(s.procs[m.pid], m.choice) ==> !KeyUsed(s.db.journal, s.procs[m.pid].Key())
  {
    MoveIsAtomic(s, m);
    var p := s.procs[m.pid];
    assert ProcOk(s.db, s.nextId, p);
    var j, j' := s.db.journal, Next(s, m).db.journal;
    if KeyUsed(j, key) {
      var i :| 0 <= i < |j| && j[i].key == key;
      assert j'[i].key == key;
    }
    if Commits(p, m.choice) {
      assert j' == j + [PostingOf(p)];
      assert j'[|j|].key == p.Key();
    }
  }

  /** The posting a call with all its accounts resolved stands for. */
  ghost predicate Authored(s: State, posting: Posting) {
    exists q :: 0 <= q < |s.procs|
      && |s.procs[q].ids| == |s.procs[q].Entries()| >= 2
      && s.procs[q].Key() == posting.key && s.procs[q].Rows() == posting.entries
  }

  ghost predicate AllAuthored(s: State) {
    forall i | 0 <= i < |s.db.journal| :: Authored(s, s.db.journal[i])
  }

  /** Once a call's accounts are resolved they never change. */
  lemma ResolvedStays(s: State, m: Move, q: nat)
    requires Inv(s) && Enabled(s, m) && q < |s.procs|
    requires |s.procs[q].ids| == |s.procs[q].Entries()| >= 2
    ensures Next(s, m).procs[q].ids == s.procs[q].ids && Next(s, m).procs[q].req == s.procs[q].req
  {
    assert ProcOk(s.db, s.nextId, s.procs[q]);
  }

  lemma MoveKeepsAuthored(s: State, m: Move)
    requires Inv(s) && Enabled(s, m) && AllAuthored(s)
    ensures AllAuthored(Next(s, m))
  {
    var t := Next(s, m);
    MoveIsAtomic(s, m);
    forall i | 0 <= i < |t.db.journal| ensures Authored(t, t.db.journal[i]) {
      if i < |s.db.journal| {
        assert t.db.journal[i] == s.db.journal[i];
        assert Authored(s, s.db.journal[i]);
        var q :| 0 <= q < |s.procs| && |s.procs[q].ids| == |s.procs[q].Entries()| >= 2
          && s.procs[q].Key() == s.db.journal[i].key && s.procs[q].Rows() == s.db.journal[i].entries;
        ResolvedStays(s, m, q);
      } else {
        assert ProcOk(s.db, s.nextId, s.procs[m.pid]);
        ResolvedStays(s, m, m.pid);
        assert t.procs[m.pid].Rows() == t.db.journal[i].entries;
      }
    }
  }

  lemma {:induction false} RunKeepsAuthored(s: State, moves: seq<Move>)
    requires Inv(s) && AllAuthored(s)
    ensures AllAuthored(Run(s, moves))
  {
    if moves != [] {
      var t := Run(s, moves[..|moves| - 1]);
      RunKeepsInv(s, moves[..|moves| - 1]);
      RunKeepsAuthored(s, moves[..|moves| - 1]);
      if Enabled(t, moves[|moves| - 1]) { MoveKeepsAuthored(t, moves[|moves| - 1]); }
    }
  }

  /** At-most-once posting, for any number of calls, retries, and commits that
      took effect but reported an error: a key names at most one posting, that
      posting carries the full entry list of a call with the key, and every call
      with the key that reports success returns that posting's id. */
  lemma AtMostOnce(s: State, moves: seq<Move>)
    requires Init(s)
    ensures var t := Run(s, moves);
      && (forall i, j | 0 <= i < |t.db.journal| && 0 <= j < |t.db.journal|
                        && t.db.journal[i].key == t.db.journal[j].key :: i == j)
      && (forall i | 0 <= i < |t.db.journal| :: Authored(t, t.db.journal[i]))
      && (forall q | 0 <= q < |t.procs| && t.procs[q].pc.Done? && t.procs[q].outcome.Success? ::
            IsPosting(t.db.journal, t.procs[q].outcome.id, t.procs[q].Key()))
  {
    InitInv(s);
    RunKeepsInv(s, moves);
    RunKeepsAuthored(s, moves);
    var t := Run(s, moves);
    forall q | 0 <= q < |t.procs| && t.procs[q].pc.Done? && t.procs[q].outcome.Success?
      ensures IsPosting(t.db.journal, t.procs[q].outcome.id, t.procs[q].Key())
    {
      assert ProcOk(t.db, t.nextId, t.procs[q]);
    }
  }

  /** Two successful calls with one key report one posting. */
  lemma SameKeySameAnswer(s: State, moves: seq<Move>, p: nat, q: nat)
    requires Init(s)
    requires p < |Run(s, moves).procs| && q < |Run(s, moves).procs|
    requires var a, b := Run(s, moves).procs[p], Run(s, moves).procs[q];
      && a.Key() == b.Key() && a.pc.Done? && b.pc.Done? && a.outcome.Success? && b.outcome.Success?
    ensures Run(s, moves).procs[p].outcome.id == Run(s, moves).procs[q].outcome.id
  {
    AtMostOnce(s, moves);
  }

  /** The call's own entries are posted under its answer. */
  ghost predicate Recorded(s: State, p: Proc) {
    && p.outcome.Success? && |p.ids| == |p.Entries()|
    && exists i :: 0 <= i < |s.db.journal|
         && s.db.journal[i].id == p.outcome.id && s.db.journal[i].key == p.Key() && s.db.journal[i].entries == p.Rows()
  }

  /** Keys are shared by all calls: a success stands for the call's own entries when no
      other call uses its key. */
  lemma OwnRows(s: State, moves: seq<Move>, p: nat)
    requires Init(s) && p < |Run(s, moves).procs|
    requires var t := Run(s, moves);
      && t.procs[p].pc.Done? && t.procs[p].outcome.Success?
      && forall q | 0 <= q < |t.procs| && q != p :: t.procs[q].Key() != t.procs[p].Key()
    ensures Recorded(Run(s, moves), Run(s, moves).procs[p])
  {
    AtMostOnce(s, moves);
    var t := Run(s, moves);
    var i :| 0 <= i < |t.db.journal|
      && t.db.journal[i].key == t.procs[p].Key() && t.db.journal[i].id == t.procs[p].outcome.id;
    assert Authored(t, t.db.journal[i]);
  }

  /** The call's entries are posted under its answer, on the accounts they name. */
  ghost predicate RecordedAs(s: State, p: Proc) {
    && p.outcome.Success?
    && exists i, ids ::
         && 0 <= i < |s.db.journal| && |ids| == |p.Entries()| && Resolves(s.db, p.Entries(), ids)
         && s.db.journal[i].id == p.outcome.id && s.db.journal[i].key == p.Key()
         && s.db.journal[i].entries == Resolved(p.Entries(), ids)
  }

  /** So it does when every call with the key carries the same input, as retries do. */
  lemma RetriedRows(s: State, moves: seq<Move>, p: nat)
    requires Init(s) && p < |Run(s, moves).procs|
    requires var t := Run(s, moves);
      && t.procs[p].pc.Done? && t.procs[p].outcome.Success?
      && forall q | 0 <= q < |t.procs| && t.procs[q].Key() == t.procs[p].Key() ::
           InputOf(t.procs[q].req) == InputOf(t.procs[p].req)
    ensures RecordedAs(Run(s, moves), Run(s, moves).procs[p])
  {
    AtMostOnce(s, moves);
    InitInv(s);
    RunKeepsInv(s, moves);
    var t := Run(s, moves);
    var i :| 0 <= i < |t.db.journal|
      && t.db.journal[i].key == t.procs[p].Key() && t.db.journal[i].id == t.procs[p].outcome.id;
    assert Authored(t, t.db.journal[i]);
    var q :| 0 <= q < |t.procs| && |t.procs[q].ids| == |t.procs[q].Entries()| >= 2
      && t.procs[q].Key() == t.db.journal[i].key && t.procs[q].Rows() == t.db.journal[i].entries;
    assert ProcOk(t.db, t.nextId, t.procs[q]);
    assert Resolves(t.db, t.procs[p].Entries(), t.procs[q].ids);
  }
}
