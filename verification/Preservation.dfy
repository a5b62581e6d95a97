/** Every move keeps the invariants, and changes the tables only by one atomic
    ledger event. */
module Preservation {
  import opened Ledger
  import opened Protocol
  import opened Invariants

  /** This move commits the transaction (whether or not the commit reports success). */
  ghost predicate Commits(p: Proc, c: Choice) {
    && p.pc.Writing? && |p.ids| == |p.Entries()|
    && p.inserted == |p.Entries()| && p.pending == {}
    && (c.Ambiguous? || (c.Ok? && Balanced(p.Rows())))
  }

  ghost predicate Provisions(p: Proc, c: Choice) {
    p.pc.Provisioning? && |p.ids| < |p.Entries()| && (c.Row? || c.Ambiguous?)
  }

  /** The atomic ledger event of a move, if it has one. */
  ghost function EventOf(s: State, m: Move): Option<Event>
    requires Enabled(s, m)
  {
    var p := s.procs[m.pid];
    if Provisions(p, m.choice) then
      Some(Provisioned(m.choice.id, p.Entries()[|p.ids|].account.userId, p.Entries()[|p.ids|].currency))
    else if Commits(p, m.choice) then Some(Posted(PostingOf(p)))
    else None
  }

  lemma WriteIsAtomic(s: State, m: Move)
    requires Inv(s) && Enabled(s, m) && s.procs[m.pid].pc.Writing?
    ensures EventOf(s, m).None? ==> Next(s, m).db == s.db
    ensures EventOf(s, m).Some? ==>
              CanApply(s.db, EventOf(s, m).value) && Next(s, m).db == Apply(s.db, EventOf(s, m).value)
  {
    var p := s.procs[m.pid];
    assert ProcOk(s.db, s.nextId, p);
    assert p.Rows()[..|p.Entries()|] == p.Rows();
    if Commits(p, m.choice) {
      CommitIsApply(s.db, p);
    }
  }

  /** Refinement of one move: it either leaves the tables alone or is exactly one
      applicable atomic event. */
  lemma MoveIsAtomic(s: State, m: Move)
    requires Inv(s) && Enabled(s, m)
    ensures EventOf(s, m).None? ==> Next(s, m).db == s.db
    ensures EventOf(s, m).Some? ==>
              CanApply(s.db, EventOf(s, m).value) && Next(s, m).db == Apply(s.db, EventOf(s, m).value)
  {
    if s.procs[m.pid].pc.Writing? {
      WriteIsAtomic(s, m);
    }
  }

  // ----- tables --------------------------------------------------------------

  lemma {:induction false} NoEntriesNoSum(journal: seq<Posting>, x: AccountId)
    requires forall i | 0 <= i < |journal| ::
      forall k | 0 <= k < |journal[i].entries| :: journal[i].entries[k].account != x
    ensures CacheSum(journal, x) == 0 && JournalSum(journal, x) == 0
  {
    if journal != [] {
      var last := journal[|journal| - 1];
      NoEntriesNoSum(journal[..|journal| - 1], x);
      UntouchedDelta(last.entries, x);
    }
  }

  lemma ProvisionKeepsTables(db: Db, nextId: nat, id: AccountId, user: string, currency: string)
    requires WalletsUnique(db.accounts) && CacheOk(db) && JournalOk(db, nextId)
    requires CanApply(db, Provisioned(id, user, currency))
    ensures var db' := Apply(db, Provisioned(id, user, currency));
      WalletsUnique(db'.accounts) && CacheOk(db') && JournalOk(db', nextId) && Grows(db, db')
      && SameCacheExcept(db, db', {})
  {
    var db' := Apply(db, Provisioned(id, user, currency));
    forall i | 0 <= i < |db.journal|
      ensures PostingOk(db'.accounts, db.journal[i])
      ensures forall k | 0 <= k < |db.journal[i].entries| :: db.journal[i].entries[k].account != id
    {
      assert PostingOk(db.accounts, db.journal[i]);
      forall k | 0 <= k < |db.journal[i].entries|
        ensures EntryOk(db'.accounts, db.journal[i].entries[k]) && db.journal[i].entries[k].account != id
      {
        assert EntryOk(db.accounts, db.journal[i].entries[k]);
      }
    }
    NoEntriesNoSum(db.journal, id);
  }

  lemma PostKeepsTables(db: Db, nextId: nat, p: Posting)
    requires WalletsUnique(db.accounts) && CacheOk(db) && JournalOk(db, nextId)
    requires CanApply(db, Posted(p))
    requires forall k | 0 <= k < |p.entries| :: EntryOk(db.accounts, p.entries[k])
    requires p.id < nextId && forall i | 0 <= i < |db.journal| :: db.journal[i].id != p.id
    ensures var db' := Apply(db, Posted(p));
      WalletsUnique(db'.accounts) && CacheOk(db') && JournalOk(db', nextId) && Grows(db, db')
  {
    var db' := Apply(db, Posted(p));
    assert db'.journal[..|db.journal|] == db.journal;
    forall i | 0 <= i < |db'.journal| ensures PostingOk(db'.accounts, db'.journal[i]) {
      if i < |db.journal| { assert PostingOk(db.accounts, db.journal[i]); }
      forall k | 0 <= k < |db'.journal[i].entries| ensures EntryOk(db'.accounts, db'.journal[i].entries[k]) {
        assert EntryOk(db.accounts, db'.journal[i].entries[k]);
      }
    }
    forall i, j | 0 <= i < j < |db'.journal|
      ensures db'.journal[i].key != db'.journal[j].key && db'.journal[i].id != db'.journal[j].id
    {
      if j == |db.journal| {
        assert !KeyUsed(db.journal, p.key);
      }
    }
  }

  // ----- the other calls -----------------------------------------------------

  lemma ResolvesGrows(db: Db, db': Db, entries: seq<EntryInput>, ids: seq<AccountId>)
    requires Resolves(db, entries, ids) && Grows(db, db')
    ensures Resolves(db', entries, ids)
  {
    forall i | 0 <= i < |ids| ensures RowIs(db', ids[i], entries[i]) {
      assert RowIs(db, ids[i], entries[i]);
    }
  }

  lemma ReplayGrows(db: Db, db': Db, id: nat, key: string)
    requires Grows(db, db') && IsPosting(db.journal, id, key)
    ensures IsPosting(db'.journal, id, key)
  {
    var i :| 0 <= i < |db.journal| && db.journal[i].key == key && db.journal[i].id == id;
    assert db'.journal[i] == db.journal[i];
  }

  /** A call at rest keeps its invariant while others move, as long as nobody
      writes the rows it has locked or takes the key it has inserted. */
  lemma OtherProcOk(db: Db, db': Db, nextId: nat, nextId': nat, q: Proc, rows: set<AccountId>)
    requires ProcOk(db, nextId, q) && nextId <= nextId'
    requires Grows(db, db') && SameCacheExcept(db, db', rows) && rows !! q.held
    requires q.pc.Writing? ==> !KeyUsed(db'.journal, q.Key())
    ensures ProcOk(db', nextId', q)
  {
    ResolvesGrows(db, db', q.Entries(), q.ids);
    if q.pc.Done? && q.outcome.Success? {
      ReplayGrows(db, db', q.outcome.id, q.Key());
    }
  }

  // ----- the moving call ---------------------------------------------------------

  lemma ResolvedOneMore(db: Db, p: Proc, id: AccountId)
    requires Resolves(db, p.Entries(), p.ids) && |p.ids| < |p.Entries()|
    requires RowIs(db, id, p.Entries()[|p.ids|])
    ensures Resolves(db, p.Entries(), p.ids + [id])
  {
    forall i | 0 <= i < |p.ids| + 1 ensures RowIs(db, (p.ids + [id])[i], p.Entries()[i]) {
      if i < |p.ids| { assert RowIs(db, p.ids[i], p.Entries()[i]); }
    }
  }

  lemma CheckingProcOk(s: State, p: Proc, c: Choice, clock: nat)
    requires ProcOk(s.db, s.nextId, p)
    requires p.pc.Fresh? || p.pc.Balance? || p.pc.Clock? || p.pc.Day? || p.pc.Month?
    requires p.pc.Balance? && c.Row? ==> c.id in s.db.accounts && s.db.accounts[c.id].Wallet?
    ensures var q := QuietEffect(s, p, c, clock);
      ProcOk(s.db, s.nextId, q) && q.held == {} && !q.pc.Writing?
  {
  }

  lemma ResolvingProcOk(s: State, p: Proc, c: Choice, clock: nat)
    requires ProcOk(s.db, s.nextId, p)
    requires p.pc.Resolving? || p.pc.Reselecting?
    requires CanResolve(s.db, p, c)
    ensures var q := QuietEffect(s, p, c, clock);
      ProcOk(s.db, s.nextId, q) && q.held == {} && !q.pc.Writing?
  {
    if c.Row? { ResolvedOneMore(s.db, p, c.id); }
  }

  lemma RestartProcOk(s: State, p: Proc, c: Choice, clock: nat)
    requires ProcOk(s.db, s.nextId, p)
    requires p.pc.Ready? || (p.pc.Failed? && CanRecover(s.db, p, c))
    ensures var q := QuietEffect(s, p, c, clock);
      ProcOk(s.db, s.nextId, q) && q.held == {} && !q.pc.Writing?
  {
  }

  lemma ProvisionProcOk(s: State, m: Move)
    requires Inv(s) && Enabled(s, m) && s.procs[m.pid].pc.Provisioning?
    ensures ProcOk(Next(s, m).db, s.nextId, Next(s, m).procs[m.pid]) && Next(s, m).procs[m.pid].held == {}
    ensures !Next(s, m).procs[m.pid].pc.Writing?
  {
    var p := s.procs[m.pid];
    assert ProcOk(s.db, s.nextId, p);
    if Provisions(p, m.choice) {
      var e := p.Entries()[|p.ids|];
      ProvisionKeepsTables(s.db, s.nextId, m.choice.id, e.account.userId, e.currency);
      ResolvesGrows(s.db, Next(s, m).db, p.Entries(), p.ids);
      ResolvedOneMore(Next(s, m).db, p, m.choice.id);
    }
  }

  lemma LockProcOk(s: State, m: Move)
    requires Inv(s) && Enabled(s, m) && s.procs[m.pid].pc.Locking?
    ensures ProcOk(s.db, Next(s, m).nextId, Next(s, m).procs[m.pid])
  {
    var p := s.procs[m.pid];
    assert ProcOk(s.db, s.nextId, p);
  }

  lemma UpdateProcOk(s: State, m: Move)
    requires Inv(s) && Enabled(s, m) && s.procs[m.pid].pc.Writing? && m.choice.Row?
    ensures ProcOk(s.db, s.nextId, Next(s, m).procs[m.pid])
  {
    assert ProcOk(s.db, s.nextId, s.procs[m.pid]);
  }

  lemma BufferingProcOk(s: State, m: Move)
    requires Inv(s) && Enabled(s, m) && s.procs[m.pid].pc.Writing?
    requires !Commits(s.procs[m.pid], m.choice)
    ensures ProcOk(s.db, s.nextId, Next(s, m).procs[m.pid])
  {
    var p := s.procs[m.pid];
    if m.choice.Row? {
      UpdateProcOk(s, m);
    } else {
      assert ProcOk(s.db, s.nextId, p);
      assert p.Rows()[..|p.Entries()|] == p.Rows();
    }
  }

  lemma CommitProcOk(s: State, m: Move)
    requires Inv(s) && Enabled(s, m) && Commits(s.procs[m.pid], m.choice)
    requires Grows(s.db, Next(s, m).db) && Next(s, m).db == Apply(s.db, Posted(PostingOf(s.procs[m.pid])))
    ensures ProcOk(Next(s, m).db, s.nextId, Next(s, m).procs[m.pid])
  {
    var p := s.procs[m.pid];
    assert ProcOk(s.db, s.nextId, p);
    assert p.Rows()[..p.inserted] == p.Rows();
    ResolvesGrows(s.db, Next(s, m).db, p.Entries(), p.ids);
    var j := Next(s, m).db.journal;
    assert j[|j| - 1] == PostingOf(p);
    assert IsPosting(j, p.postingId, p.Key());
  }

  // ----- all together -----------------------------------------------------------

  /** The rows a move may write: only those its own process has locked. */
  ghost function WrittenRows(s: State, m: Move): set<AccountId>
    requires Enabled(s, m)
  {
    if EventOf(s, m).Some? && EventOf(s, m).value.Posted? then s.procs[m.pid].held else {}
  }

  lemma TablesKept(s: State, m: Move)
    requires Inv(s) && Enabled(s, m)
    ensures var t := Next(s, m);
      && WalletsUnique(t.db.accounts) && CacheOk(t.db) && JournalOk(t.db, t.nextId)
      && Grows(s.db, t.db) && SameCacheExcept(s.db, t.db, WrittenRows(s, m))
      && s.nextId <= t.nextId
  {
    MoveIsAtomic(s, m);
    match EventOf(s, m)
    case None =>
    case Some(Provisioned(id, u, c)) => ProvisionKeepsTables(s.db, s.nextId, id, u, c);
    case Some(Posted(posting)) =>
      var p := s.procs[m.pid];
      assert ProcOk(s.db, s.nextId, p);
      RowsOk(s.db, p.Entries(), p.ids);
      PostKeepsTables(s.db, s.nextId, posting);
      forall x | x in s.db.accounts && s.db.accounts[x].Wallet? && x !in p.held
        ensures Delta(p.Rows(), x) == 0
      {
        WalletRows(s.db, p, x);
      }
  }

  lemma MoverKept(s: State, m: Move)
    requires Inv(s) && Enabled(s, m)
    ensures ProcOk(Next(s, m).db, Next(s, m).nextId, Next(s, m).procs[m.pid])
    ensures !s.procs[m.pid].pc.Locking? && !s.procs[m.pid].pc.Writing? ==>
              Next(s, m).procs[m.pid].held == {} && !Next(s, m).procs[m.pid].pc.Writing?
  {
    var p := s.procs[m.pid];
    assert ProcOk(s.db, s.nextId, p);
    TablesKept(s, m);
    MoveIsAtomic(s, m);
    match p.pc
    case Provisioning => ProvisionProcOk(s, m);
    case Locking => LockProcOk(s, m);
    case Writing => if Commits(p, m.choice) { CommitProcOk(s, m); } else { BufferingProcOk(s, m); }
    case Ready => RestartProcOk(s, p, m.choice, m.clock);
    case Failed => RestartProcOk(s, p, m.choice, m.clock);
    case Resolving => ResolvingProcOk(s, p, m.choice, m.clock);
    case Reselecting => ResolvingProcOk(s, p, m.choice, m.clock);
    case _ => CheckingProcOk(s, p, m.choice, m.clock);
  }

  /** Nobody else's inserted key enters the journal. */
  lemma OthersKeysFree(s: State, m: Move, q: nat)
    requires Inv(s) && Enabled(s, m) && q < |s.procs| && q != m.pid && s.procs[q].pc.Writing?
    ensures !KeyUsed(Next(s, m).db.journal, s.procs[q].Key())
  {
    assert ProcOk(s.db, s.nextId, s.procs[q]);
    MoveIsAtomic(s, m);
    var t := Next(s, m);
    forall i | 0 <= i < |t.db.journal| ensures t.db.journal[i].key != s.procs[q].Key() {
      if i < |s.db.journal| { assert t.db.journal[i] == s.db.journal[i]; }
    }
  }

  lemma OthersKept(s: State, m: Move, q: nat)
    requires Inv(s) && Enabled(s, m) && q < |s.procs| && q != m.pid
    ensures ProcOk(Next(s, m).db, Next(s, m).nextId, Next(s, m).procs[q])
  {
    TablesKept(s, m);
    if s.procs[q].pc.Writing? { OthersKeysFree(s, m, q); }
    OtherProcOk(s.db, Next(s, m).db, s.nextId, Next(s, m).nextId, s.procs[q], WrittenRows(s, m));
  }

  /** In the locking phase a call gains at most one free lock, or one free key. */
  lemma LockerApart(s: State, m: Move, q: nat)
    requires Inv(s) && Enabled(s, m) && q < |s.procs| && q != m.pid && s.procs[m.pid].pc.Locking?
    ensures Apart(Next(s, m).procs[m.pid], s.procs[q])
  {
    assert ProcOk(s.db, s.nextId, s.procs[m.pid]) && ProcOk(s.db, s.nextId, s.procs[q]);
    if m.choice.Row? {
      assert m.choice.id !in s.procs[q].held;
    }
  }

  /** In the writing phase it keeps what it has, or gives everything up. */
  lemma WriterApart(s: State, m: Move, q: nat)
    requires Inv(s) && Enabled(s, m) && q < |s.procs| && q != m.pid && s.procs[m.pid].pc.Writing?
    ensures Apart(Next(s, m).procs[m.pid], s.procs[q])
  {
    assert ProcOk(s.db, s.nextId, s.procs[m.pid]);
    assert Apart(s.procs[m.pid], s.procs[q]);
  }

  lemma MoverExclusive(s: State, m: Move, q: nat)
    requires Inv(s) && Enabled(s, m) && q < |s.procs| && q != m.pid
    ensures Apart(Next(s, m).procs[m.pid], Next(s, m).procs[q])
  {
    var p := s.procs[m.pid];
    if p.pc.Locking? {
      LockerApart(s, m, q);
    } else if p.pc.Writing? {
      WriterApart(s, m, q);
    } else {
      MoverKept(s, m);
    }
  }

  lemma IdsStayFresh(s: State, m: Move)
    requires Inv(s) && Enabled(s, m)
    ensures FreshIds(Next(s, m))
  {
    var t := Next(s, m);
    MoveIsAtomic(s, m);
    MoverKept(s, m);
    assert ProcOk(s.db, s.nextId, s.procs[m.pid]);
    forall q, i | 0 <= q < |t.procs| && 0 <= i < |t.db.journal| && t.procs[q].pc.Writing?
      ensures t.procs[q].postingId != t.db.journal[i].id
    {
      if i < |s.db.journal| { assert t.db.journal[i] == s.db.journal[i] && PostingOk(s.db.accounts, s.db.journal[i]); }
    }
  }

  lemma MoveKeepsInv(s: State, m: Move)
    requires Inv(s) && Enabled(s, m)
    ensures Inv(Next(s, m))
  {
    var t := Next(s, m);
    TablesKept(s, m);
    MoverKept(s, m);
    IdsStayFresh(s, m);
    forall q | 0 <= q < |t.procs| ensures ProcOk(t.db, t.nextId, t.procs[q]) {
      if q != m.pid { OthersKept(s, m, q); }
    }
    forall p, q | 0 <= p < |t.procs| && 0 <= q < |t.procs| && p != q
      ensures Apart(t.procs[p], t.procs[q])
    {
      if p == m.pid {
        MoverExclusive(s, m, q);
      } else if q == m.pid {
        MoverExclusive(s, m, p);
      } else {
        assert Apart(s.procs[p], s.procs[q]);
      }
    }
  }

  lemma {:induction false} RunKeepsInv(s: State, moves: seq<Move>)
    requires Inv(s)
    ensures Inv(Run(s, moves))
  {
    if moves != [] {
      var t := Run(s, moves[..|moves| - 1]);
      RunKeepsInv(s, moves[..|moves| - 1]);
      if Enabled(t, moves[|moves| - 1]) { MoveKeepsInv(t, moves[|moves| - 1]); }
    }
  }

  lemma SeededTables(db: Db, nextId: nat)
    requires Seeded(db.accounts) && db.journal == []
    ensures WalletsUnique(db.accounts) && CacheOk(db) && JournalOk(db, nextId)
  {
    assert forall x | x in db.accounts :: db.accounts[x].System?;
  }

  lemma InitInv(s: State)
    requires Init(s)
    ensures Inv(s)
  {
    SeededTables(s.db, s.nextId);
    forall p | 0 <= p < |s.procs| ensures ProcOk(s.db, s.nextId, s.procs[p]) && s.procs[p].held == {} {
      assert NotBegun(s.procs[p]);
    }
  }
}
