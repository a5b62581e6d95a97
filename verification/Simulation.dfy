/** Building runs: what one call can do, step by step, while the others hold no locks and
    have no posting open. The sequential engine is shown to be such a run, and concrete
    runs are put together from the same pieces. */
module Simulation {
  import opened Int64
  import opened Ledger
  import opened Protocol
  import opened Invariants
  import opened Preservation
  import opened Refinement
  import opened Least
  import Calendar
  import Currency
  import Kyc

  // ----- runs from one state to another ------------------------------------------------------

  ghost predicate Reaches(s: State, moves: seq<Move>, t: State, evs: seq<Event>) {
    Run(s, moves) == t && Events(s, moves) == evs
  }

  /** Some run leads from s to t, with these atomic events in this order. */
  ghost predicate Ran(s: State, t: State, evs: seq<Event>) {
    exists moves :: Reaches(s, moves, t, evs)
  }

  lemma RanNothing(s: State)
    ensures Ran(s, s, [])
  {
    assert Reaches(s, [], s, []);
  }

  lemma RanMove(s: State, m: Move)
    requires Enabled(s, m)
    ensures Ran(s, Next(s, m), if EventOf(s, m).Some? then [EventOf(s, m).value] else [])
  {
    assert [m][..0] == [] && Run(s, []) == s && Events(s, []) == [];
    assert Run(s, [m]) == Next(s, m);
    var evs := if EventOf(s, m).Some? then [EventOf(s, m).value] else [];
    assert Events(s, [m]) == [] + evs == evs;
    assert Reaches(s, [m], Next(s, m), evs);
  }

  lemma {:induction false} ReachesThrough(s: State, a: seq<Move>, b: seq<Move>)
    ensures Run(s, a + b) == Run(Run(s, a), b)
    ensures Events(s, a + b) == Events(s, a) + Events(Run(s, a), b)
    decreases |b|
  {
    if b == [] {
      assert a + b == a;
    } else {
      var earlier := b[..|b| - 1];
      ReachesThrough(s, a, earlier);
      assert (a + b)[..|a + b| - 1] == a + earlier;
    }
  }

  lemma RanThrough(s: State, t: State, u: State, evs: seq<Event>, evs': seq<Event>)
    requires Ran(s, t, evs) && Ran(t, u, evs')
    ensures Ran(s, u, evs + evs')
  {
    var a :| Reaches(s, a, t, evs);
    var b :| Reaches(t, b, u, evs');
    ReachesThrough(s, a, b);
    assert Reaches(s, a + b, u, evs + evs');
  }

  /** A silent move followed by a run. */
  lemma RanAfter(s: State, m: Move, u: State, evs: seq<Event>)
    requires Enabled(s, m) && EventOf(s, m).None? && Ran(Next(s, m), u, evs)
    ensures Ran(s, u, evs)
  {
    RanMove(s, m);
    RanThrough(s, Next(s, m), u, [], evs);
    assert [] + evs == evs;
  }

  lemma RanKeepsInv(s: State, t: State, evs: seq<Event>)
    requires Inv(s) && Ran(s, t, evs)
    ensures Inv(t) && ApplyAll(s.db, evs) == Some(t.db)
  {
    var moves :| Reaches(s, moves, t, evs);
    RunKeepsInv(s, moves);
    RunRefinesAtomicLedger(s, moves);
  }

  /** A call that has not begun. */
  function NewCall(r: Request): Proc {
    Proc(r, Fresh, 0, [], 0, 0, {}, {}, 0, 0, {}, map[], Other, Failure)
  }

  // ----- one call among idle ones --------------------------------------------------------------

  ghost predicate IdleButFor(s: State, pid: nat) {
    && pid < |s.procs|
    && forall q | 0 <= q < |s.procs| && q != pid :: s.procs[q].held == {} && !s.procs[q].pc.Writing?
  }

  /** s with call pid, the tables, the id counter and the clock moved on. */
  function With(s: State, pid: nat, p: Proc, db: Db, nextId: nat, clock: nat): State
    requires pid < |s.procs|
  {
    State(db, s.procs[pid := p], nextId, clock, s.levels)
  }

  lemma WithSelf(s: State, pid: nat)
    requires pid < |s.procs|
    ensures With(s, pid, s.procs[pid], s.db, s.nextId, s.clock) == s
  {
  }

  lemma WithTwice(s: State, pid: nat, p: Proc, db: Db, nextId: nat, clock: nat, p': Proc, db': Db, nextId': nat,
                  clock': nat)
    requires pid < |s.procs|
    ensures With(With(s, pid, p, db, nextId, clock), pid, p', db', nextId', clock')
        == With(s, pid, p', db', nextId', clock')
  {
  }

  // ----- resolving -----------------------------------------------------------------------------

  function NextEntry(p: Proc): EntryInput
    requires |p.ids| < |p.Entries()|
  {
    p.Entries()[|p.ids|]
  }

  function AfterEntry(p: Proc, id: Option<AccountId>): Proc {
    if id.Some? then p.AddId(id.value) else p.Finish(Failure)
  }

  lemma FoundRun(s: State, pid: nat, clock: nat, id: Option<AccountId>)
    requires pid < |s.procs| && s.clock <= clock && s.procs[pid].pc.Resolving?
    requires |s.procs[pid].ids| < |s.procs[pid].Entries()|
    requires id.Some? ==> RowIs(s.db, id.value, NextEntry(s.procs[pid]))
    ensures Ran(s, With(s, pid, AfterEntry(s.procs[pid], id), s.db, s.nextId, clock), [])
  {
    var m := Move(pid, if id.Some? then Row(id.value) else Fault(Other), clock);
    assert Enabled(s, m);
    RanMove(s, m);
  }

  /** The wallet insert, after a lookup that found nothing; told: the insert's success
      was reported. */
  lemma InsertWalletRun(s: State, pid: nat, clock: nat, x: AccountId, told: bool)
    requires pid < |s.procs| && s.clock <= clock && s.procs[pid].pc.Provisioning?
    requires |s.procs[pid].ids| < |s.procs[pid].Entries()|
    requires var e := NextEntry(s.procs[pid]); CanApply(s.db, Provisioned(x, e.account.userId, e.currency))
    ensures var p := s.procs[pid];
      var ev := Provisioned(x, NextEntry(p).account.userId, NextEntry(p).currency);
      Ran(s, With(s, pid, AfterEntry(p, if told then Some(x) else None), Apply(s.db, ev), s.nextId, clock), [ev])
  {
    var m := Move(pid, if told then Row(x) else Ambiguous(x, Other), clock);
    assert Enabled(s, m);
    RanMove(s, m);
  }

  lemma ProvisionRun(s: State, pid: nat, clock: nat, x: AccountId, told: bool)
    requires pid < |s.procs| && s.clock <= clock && s.procs[pid].pc.Resolving?
    requires |s.procs[pid].ids| < |s.procs[pid].Entries()| && !NextEntry(s.procs[pid]).account.IsSystem()
    requires var e := NextEntry(s.procs[pid]); CanApply(s.db, Provisioned(x, e.account.userId, e.currency))
    ensures var p := s.procs[pid];
      var ev := Provisioned(x, NextEntry(p).account.userId, NextEntry(p).currency);
      Ran(s, With(s, pid, AfterEntry(p, if told then Some(x) else None), Apply(s.db, ev), s.nextId, clock), [ev])
  {
    var p := s.procs[pid];
    var m := Move(pid, NoRow, clock);
    assert forall y :: !RowIs(s.db, y, NextEntry(p));
    assert Enabled(s, m);
    var t := Next(s, m);
    InsertWalletRun(t, pid, clock, x, told);
    var ev := Provisioned(x, NextEntry(p).account.userId, NextEntry(p).currency);
    var u := With(s, pid, AfterEntry(p, if told then Some(x) else None), Apply(s.db, ev), s.nextId, clock);
    var q := AfterEntry(t.procs[pid], if told then Some(x) else None);
    assert u == With(t, pid, q, Apply(t.db, ev), t.nextId, clock);
    RanAfter(s, m, u, [ev]);
  }

  /** What looking up or provisioning the account of an entry may come to. */
  ghost predicate EntryOutcome(db: Db, e: EntryInput, id: Option<AccountId>, evs: seq<Event>, db': Db) {
    && ApplyAll(db, evs) == Some(db')
    && (id.Some? ==> RowIs(db', id.value, e))
    && (evs == [] || (!e.account.IsSystem() && exists x :: evs == [Provisioned(x, e.account.userId, e.currency)]))
  }

  lemma NewWalletIsTheOne(db: Db, x: AccountId, e: EntryInput, id: AccountId)
    requires !e.account.IsSystem() && CanApply(db, Provisioned(x, e.account.userId, e.currency))
    requires RowIs(Apply(db, Provisioned(x, e.account.userId, e.currency)), id, e)
    ensures id == x
  {
  }

  /** One entry's account: found, provisioned, or neither; a provision may have taken
      effect although the call then fails. */
  lemma EntryRun(s: State, pid: nat, clock: nat, id: Option<AccountId>, evs: seq<Event>, db: Db)
    requires pid < |s.procs| && s.clock <= clock && s.procs[pid].pc.Resolving?
    requires |s.procs[pid].ids| < |s.procs[pid].Entries()|
    requires EntryOutcome(s.db, NextEntry(s.procs[pid]), id, evs, db)
    ensures Ran(s, With(s, pid, AfterEntry(s.procs[pid], id), db, s.nextId, clock), evs)
  {
    var e := NextEntry(s.procs[pid]);
    if evs == [] {
      FoundRun(s, pid, clock, id);
    } else {
      var x :| evs == [Provisioned(x, e.account.userId, e.currency)];
      assert evs[..0] == [];
      assert ApplyAll(s.db, []) == Some(s.db);
      if id.Some? { NewWalletIsTheOne(s.db, x, e, id.value); }
      ProvisionRun(s, pid, clock, x, id.Some?);
    }
  }

  // ----- locks and the posting row ---------------------------------------------------------------

  function Locked(p: Proc): Proc
    requires |p.ids| == |p.Entries()|
  {
    p.(todo := {}, held := p.Wallets())
  }

  lemma LockEnabled(s: State, pid: nat, clock: nat, x: AccountId)
    requires IdleButFor(s, pid) && s.clock == clock && s.procs[pid].pc.Locking?
    requires |s.procs[pid].ids| == |s.procs[pid].Entries()| && IsLeast(x, s.procs[pid].todo)
    ensures Enabled(s, Move(pid, Row(x), clock))
  {
    assert !LockedByOther(s, pid, x);
  }

  lemma LockNext(p: Proc, x: AccountId)
    requires |p.ids| == |p.Entries()| && LockedInOrder(p) && IsLeast(x, p.todo)
    ensures var q := p.(todo := p.todo - {x}, held := p.held + {x}); q.todo < p.todo && LockedInOrder(q)
  {
  }

  /** One lock: the least wallet still to take is free. */
  lemma LockMove(s: State, pid: nat, clock: nat) returns (t: State)
    requires IdleButFor(s, pid) && s.clock == clock && s.procs[pid].pc.Locking?
    requires |s.procs[pid].ids| == |s.procs[pid].Entries()| && s.procs[pid].todo != {}
    requires LockedInOrder(s.procs[pid])
    ensures Ran(s, t, []) && |t.procs| == |s.procs| && t == With(s, pid, t.procs[pid], s.db, s.nextId, clock)
    ensures var p, q := s.procs[pid], t.procs[pid];
      q == p.(todo := q.todo, held := q.held) && q.todo < p.todo && LockedInOrder(q)
  {
    var p := s.procs[pid];
    LeastExists(p.todo);
    var x :| IsLeast(x, p.todo);
    var m := Move(pid, Row(x), clock);
    LockEnabled(s, pid, clock, x);
    LockNext(p, x);
    RanMove(s, m);
    t := Next(s, m);
    assert t == With(s, pid, p.(todo := p.todo - {x}, held := p.held + {x}), s.db, s.nextId, clock);
  }

  lemma AllLocked(p: Proc)
    requires |p.ids| == |p.Entries()| && LockedInOrder(p) && p.todo == {}
    ensures Locked(p) == p
  {
    assert p.held == p.Wallets();
  }

  lemma {:induction false} LocksRun(s: State, pid: nat, clock: nat)
    requires IdleButFor(s, pid) && s.clock == clock && s.procs[pid].pc.Locking?
    requires |s.procs[pid].ids| == |s.procs[pid].Entries()| && LockedInOrder(s.procs[pid])
    ensures Ran(s, With(s, pid, Locked(s.procs[pid]), s.db, s.nextId, clock), [])
    decreases s.procs[pid].todo
  {
    if s.procs[pid].todo == {} {
      AllLocked(s.procs[pid]);
      WithSelf(s, pid);
      RanNothing(s);
    } else {
      var t := LockMove(s, pid, clock);
      LocksRun(t, pid, clock);
      WithTwice(s, pid, t.procs[pid], s.db, s.nextId, clock, Locked(t.procs[pid]), s.db, s.nextId, clock);
      RanThrough(s, t, With(s, pid, Locked(t.procs[pid]), s.db, s.nextId, clock), [], []);
    }
  }

  /** A call that has begun its transaction, taken its locks and inserted its row. */
  function Opened(p: Proc, id: nat, clock: nat): Proc
    requires |p.ids| == |p.Entries()|
  {
    p.(pc := Writing, at := clock, todo := {}, held := p.Wallets(), postingId := id, inserted := 0,
       pending := p.Wallets(), buffer := map[])
  }

  /** Inserting the posting row once all locks are taken. */
  lemma InsertRun(s: State, pid: nat, clock: nat)
    requires IdleButFor(s, pid) && s.clock == clock && s.procs[pid].pc.Locking?
    requires |s.procs[pid].ids| == |s.procs[pid].Entries()| && s.procs[pid].at == clock
    requires s.procs[pid] == Locked(s.procs[pid]) && !KeyUsed(s.db.journal, s.procs[pid].Key())
    ensures Ran(s, With(s, pid, Opened(s.procs[pid], s.nextId, clock), s.db, s.nextId + 1, clock), [])
  {
    var m := Move(pid, Ok, clock);
    assert Enabled(s, m);
    RanMove(s, m);
  }

  lemma OpenRun(s: State, pid: nat, clock: nat)
    requires IdleButFor(s, pid) && s.clock <= clock && s.procs[pid].pc.Ready?
    requires |s.procs[pid].ids| == |s.procs[pid].Entries()| && !KeyUsed(s.db.journal, s.procs[pid].Key())
    ensures Ran(s, With(s, pid, Opened(s.procs[pid], s.nextId, clock), s.db, s.nextId + 1, clock), [])
  {
    var p := s.procs[pid];
    var begin := Move(pid, Ok, clock);
    assert Enabled(s, begin);
    var t := Next(s, begin);
    LocksRun(t, pid, clock);
    var u := With(t, pid, Locked(t.procs[pid]), t.db, t.nextId, clock);
    InsertRun(u, pid, clock);
    var v := With(s, pid, Opened(p, s.nextId, clock), s.db, s.nextId + 1, clock);
    assert v == With(u, pid, Opened(u.procs[pid], u.nextId, clock), u.db, u.nextId + 1, clock);
    RanThrough(t, u, v, [], []);
    RanAfter(s, begin, v, []);
  }

  // ----- entries, caches, commit -------------------------------------------------------------------

  lemma {:induction false} EntriesRun(s: State, pid: nat, clock: nat)
    requires pid < |s.procs| && s.clock == clock && s.procs[pid].pc.Writing?
    requires |s.procs[pid].ids| == |s.procs[pid].Entries()| && s.procs[pid].inserted <= |s.procs[pid].Entries()|
    ensures var p := s.procs[pid];
      Ran(s, With(s, pid, p.(inserted := |p.Entries()|), s.db, s.nextId, clock), [])
    decreases |s.procs[pid].Entries()| - s.procs[pid].inserted
  {
    var p := s.procs[pid];
    var u := With(s, pid, p.(inserted := |p.Entries()|), s.db, s.nextId, clock);
    if p.inserted == |p.Entries()| {
      assert s == u;
      RanNothing(s);
    } else {
      var m := Move(pid, Ok, clock);
      assert Enabled(s, m);
      var t := Next(s, m);
      EntriesRun(t, pid, clock);
      assert u == With(t, pid, t.procs[pid].(inserted := |p.Entries()|), s.db, s.nextId, clock);
      RanAfter(s, m, u, []);
    }
  }

  /** Every wallet still to update is a wallet row whose new balance fits. */
  ghost predicate Updatable(db: Db, p: Proc)
    requires |p.ids| == |p.Entries()|
  {
    forall x | x in p.pending ::
      x in db.accounts && db.accounts[x].Wallet? && InRange(db.accounts[x].cached + Delta(p.Rows(), x))
  }

  lemma {:induction false} CachesRun(s: State, pid: nat, clock: nat) returns (t: State)
    requires pid < |s.procs| && s.clock == clock && s.procs[pid].pc.Writing?
    requires var p := s.procs[pid];
      p.inserted == |p.Entries()| && |p.ids| == |p.Entries()| && Updatable(s.db, p)
    ensures Ran(s, t, []) && |t.procs| == |s.procs| && t == With(s, pid, t.procs[pid], s.db, s.nextId, clock)
    ensures t.procs[pid] == s.procs[pid].(pending := {}, buffer := t.procs[pid].buffer)
    decreases s.procs[pid].pending
  {
    var p := s.procs[pid];
    if p.pending == {} {
      t := s;
      RanNothing(s);
    } else {
      var x :| x in p.pending;
      var m := Move(pid, Row(x), clock);
      assert Enabled(s, m);
      var u := Next(s, m);
      var v := s.db.accounts[x].cached + Delta(p.Rows(), x);
      assert u.procs[pid] == p.(pending := p.pending - {x}, buffer := p.buffer[x := v]);
      t := CachesRun(u, pid, clock);
      RanAfter(s, m, t, []);
    }
  }

  /** Up to the commit: everything written, nothing yet visible. */
  lemma WriteRun(s: State, pid: nat, clock: nat) returns (t: State)
    requires IdleButFor(s, pid) && s.clock <= clock && s.procs[pid].pc.Ready?
    requires var p := s.procs[pid];
      && |p.ids| == |p.Entries()| && Resolves(s.db, p.Entries(), p.ids)
      && !KeyUsed(s.db.journal, p.Key()) && Fits(s.db.accounts, p.Rows())
    ensures Ran(s, t, []) && |t.procs| == |s.procs| && t == With(s, pid, t.procs[pid], s.db, s.nextId + 1, clock)
    ensures var p, q := s.procs[pid], t.procs[pid];
      && q.pc.Writing? && q.req == p.req && q.ids == p.ids && q.attempt == p.attempt && q.at == clock
      && q.inserted == |p.Entries()| && q.pending == {} && q.postingId == s.nextId
  {
    var p := s.procs[pid];
    OpenRun(s, pid, clock);
    var u := With(s, pid, Opened(p, s.nextId, clock), s.db, s.nextId + 1, clock);
    EntriesRun(u, pid, clock);
    var v := With(u, pid, u.procs[pid].(inserted := |p.Entries()|), u.db, u.nextId, clock);
    RanThrough(s, u, v, [], []);
    forall x | x in v.procs[pid].pending ensures x in s.db.accounts && s.db.accounts[x].Wallet? {
      WalletRows(s.db, p, x);
    }
    t := CachesRun(v, pid, clock);
    RanThrough(s, v, t, [], []);
  }

  // ----- a whole round -----------------------------------------------------------------------------

  /** What one round of the retry loop can come to. */
  datatype Round = Round(numbered: bool, posted: bool, answer: Option<Outcome>)

  ghost predicate Possible(db: Db, nextId: nat, key: string, rows: seq<JournalEntry>, r: Round) {
    && (r.posted ==> r.numbered && Balanced(rows) && Fits(db.accounts, rows))
    && (r.numbered ==> !KeyUsed(db.journal, key))
    && match r.answer
       case Some(Success(id, false)) => r.posted && id == nextId
       case Some(Success(id, true)) => if r.posted then id == nextId else IsPosting(db.journal, id, key)
       case _ => true
  }

  /** How a call stands after a round: answered, or ready for the next one. */
  ghost predicate Settled(p: Proc, q: Proc, answer: Option<Outcome>) {
    && q.req == p.req && q.held == {}
    && match answer
       case Some(o) => q.pc.Done? && q.outcome == o
       case None =>
         if p.attempt + 1 < MAX_RETRIES then q.pc.Ready? && q.attempt == p.attempt + 1 && q.ids == p.ids
         else q.pc.Done? && q.outcome == Failure
  }

  /** The error that leads from a rolled-back transaction to an answer. */
  function ErrorFor(answer: Option<Outcome>): Error {
    match answer
    case None => Retryable
    case Some(Success(_, _)) => Unique
    case Some(Failure) => Other
  }

  /** After the rollback: replay, another round, or failure. */
  lemma RecoverRun(s: State, pid: nat, clock: nat, answer: Option<Outcome>) returns (t: State)
    requires pid < |s.procs| && s.clock <= clock && s.procs[pid].pc.Failed? && s.procs[pid].held == {}
    requires s.procs[pid].err == ErrorFor(answer)
    requires answer.Some? && answer.value.Success? ==>
      answer.value.replayed && IsPosting(s.db.journal, answer.value.id, s.procs[pid].Key())
    ensures Ran(s, t, []) && |t.procs| == |s.procs| && t == With(s, pid, t.procs[pid], s.db, s.nextId, clock)
    ensures Settled(s.procs[pid], t.procs[pid], answer)
  {
    var m := Move(pid, if answer.Some? && answer.value.Success? then Row(answer.value.id) else Ok, clock);
    assert Enabled(s, m);
    RanMove(s, m);
    t := Next(s, m);
  }

  /** The commit, reported or not. */
  lemma CommitRun(s: State, pid: nat, clock: nat, told: bool, err: Error) returns (t: State)
    requires Inv(s) && pid < |s.procs| && s.clock == clock && s.procs[pid].pc.Writing?
    requires var p := s.procs[pid];
      |p.ids| == |p.Entries()| == p.inserted && p.pending == {} && Balanced(p.Rows())
    ensures var p := s.procs[pid];
      && Ran(s, t, [Posted(PostingOf(p))])
      && |t.procs| == |s.procs| && t == With(s, pid, t.procs[pid], Apply(s.db, Posted(PostingOf(p))), s.nextId, clock)
      && t.procs[pid].req == p.req && t.procs[pid].held == {}
      && t.procs[pid].attempt == p.attempt && t.procs[pid].ids == p.ids
      && if told then t.procs[pid].pc.Done? && t.procs[pid].outcome == Success(p.postingId, false)
         else t.procs[pid].pc.Failed? && t.procs[pid].err == err
  {
    var p := s.procs[pid];
    assert p.Rows()[..p.inserted] == p.Rows();
    var m := Move(pid, if told then Ok else Ambiguous(0, err), clock);
    assert Enabled(s, m) && Commits(p, m.choice);
    MoveIsAtomic(s, m);
    RanMove(s, m);
    t := Next(s, m);
  }

  /** A transaction that commits, whether or not it is told so. */
  lemma PostedRun(s: State, pid: nat, clock: nat, answer: Option<Outcome>) returns (t: State)
    requires Inv(s) && IdleButFor(s, pid) && s.clock <= clock && s.procs[pid].pc.Ready?
    requires |s.procs[pid].ids| == |s.procs[pid].Entries()| && Resolves(s.db, s.procs[pid].Entries(), s.procs[pid].ids)
    requires Possible(s.db, s.nextId, s.procs[pid].Key(), s.procs[pid].Rows(), Round(true, true, answer))
    ensures var posting := Posting(s.nextId, s.procs[pid].Key(), s.procs[pid].Rows(), clock);
      && Ran(s, t, [Posted(posting)])
      && |t.procs| == |s.procs| && t == With(s, pid, t.procs[pid], Apply(s.db, Posted(posting)), s.nextId + 1, clock)
    ensures Settled(s.procs[pid], t.procs[pid], answer)
  {
    var u := WriteRun(s, pid, clock);
    RanKeepsInv(s, u, []);
    var posting := PostingOf(u.procs[pid]);
    var told := answer.Some? && answer.value.Success? && !answer.value.replayed;
    var v := CommitRun(u, pid, clock, told, ErrorFor(answer));
    RanThrough(s, u, v, [], [Posted(posting)]);
    assert [] + [Posted(posting)] == [Posted(posting)];
    if told {
      t := v;
    } else {
      assert v.db.journal[|v.db.journal| - 1] == posting;
      t := RecoverRun(v, pid, clock, answer);
      RanThrough(s, v, t, [Posted(posting)], []);
      assert [Posted(posting)] + [] == [Posted(posting)];
    }
  }

  lemma FailedRun(s: State, pid: nat, clock: nat, answer: Option<Outcome>) returns (t: State)
    requires pid < |s.procs| && s.clock <= clock && (s.procs[pid].pc.Ready? || s.procs[pid].pc.Writing?)
    requires |s.procs[pid].ids| == |s.procs[pid].Entries()|
    requires s.procs[pid].pc.Writing? ==> s.procs[pid].inserted <= |s.procs[pid].Entries()|
    requires answer.Some? && answer.value.Success? ==>
      answer.value.replayed && IsPosting(s.db.journal, answer.value.id, s.procs[pid].Key())
    ensures Ran(s, t, []) && |t.procs| == |s.procs| && t == With(s, pid, t.procs[pid], s.db, s.nextId, clock)
    ensures Settled(s.procs[pid], t.procs[pid], answer)
  {
    var v := FaultRun(s, pid, clock, ErrorFor(answer));
    t := RecoverRun(v, pid, clock, answer);
    RanThrough(s, v, t, [], []);
  }

  /** A transaction that fails before or after inserting its row, without effect. */
  lemma UnpostedRun(s: State, pid: nat, clock: nat, numbered: bool, answer: Option<Outcome>) returns (t: State)
    requires IdleButFor(s, pid) && s.clock <= clock && s.procs[pid].pc.Ready?
    requires |s.procs[pid].ids| == |s.procs[pid].Entries()|
    requires Possible(s.db, s.nextId, s.procs[pid].Key(), s.procs[pid].Rows(), Round(numbered, false, answer))
    ensures Ran(s, t, []) && |t.procs| == |s.procs|
    ensures t == With(s, pid, t.procs[pid], s.db, if numbered then s.nextId + 1 else s.nextId, clock)
    ensures Settled(s.procs[pid], t.procs[pid], answer)
  {
    if numbered {
      OpenRun(s, pid, clock);
      var u := With(s, pid, Opened(s.procs[pid], s.nextId, clock), s.db, s.nextId + 1, clock);
      t := FailedRun(u, pid, clock, answer);
      RanThrough(s, u, t, [], []);
      WithTwice(s, pid, u.procs[pid], s.db, s.nextId + 1, clock, t.procs[pid], s.db, s.nextId + 1, clock);
    } else {
      t := FailedRun(s, pid, clock, answer);
    }
  }

  lemma FaultRun(s: State, pid: nat, clock: nat, err: Error) returns (t: State)
    requires pid < |s.procs| && s.clock <= clock && (s.procs[pid].pc.Ready? || s.procs[pid].pc.Writing?)
    requires |s.procs[pid].ids| == |s.procs[pid].Entries()|
    requires s.procs[pid].pc.Writing? ==> s.procs[pid].inserted <= |s.procs[pid].Entries()|
    ensures Ran(s, t, []) && t == With(s, pid, s.procs[pid].RollBack(err), s.db, s.nextId, clock)
  {
    var m := Move(pid, Fault(err), clock);
    assert Enabled(s, m);
    RanMove(s, m);
    t := Next(s, m);
  }

  /** The tables, the events and the counter after a round. */
  function AfterRound(db: Db, posting: Posting, r: Round): Db {
    if r.posted then Apply(db, Posted(posting)) else db
  }

  lemma RoundRun(s: State, pid: nat, clock: nat, r: Round) returns (t: State)
    requires Inv(s) && IdleButFor(s, pid) && s.clock <= clock && s.procs[pid].pc.Ready?
    requires |s.procs[pid].ids| == |s.procs[pid].Entries()|
    requires Possible(s.db, s.nextId, s.procs[pid].Key(), s.procs[pid].Rows(), r)
    ensures var posting := Posting(s.nextId, s.procs[pid].Key(), s.procs[pid].Rows(), clock);
      && Ran(s, t, if r.posted then [Posted(posting)] else [])
      && |t.procs| == |s.procs|
      && t == With(s, pid, t.procs[pid], AfterRound(s.db, posting, r),
                   if r.numbered then s.nextId + 1 else s.nextId, clock)
    ensures Settled(s.procs[pid], t.procs[pid], r.answer)
  {
    assert ProcOk(s.db, s.nextId, s.procs[pid]);
    if r.posted {
      t := PostedRun(s, pid, clock, r.answer);
    } else {
      t := UnpostedRun(s, pid, clock, r.numbered, r.answer);
    }
  }

  // ----- the checks of a send ------------------------------------------------------------------------

  /** The guards and the balance read of a send pass. */
  lemma BalanceRun(s: State, pid: nat, x: AccountId)
    requires pid < |s.procs| && s.procs[pid].pc.Fresh? && s.procs[pid].req.Send?
    requires var r := s.procs[pid].req;
      && r.amountMinor > 0 && Currency.IsSupported(r.currency) && r.spelled != r.from
      && x in s.db.accounts && IsWallet(s.db.accounts[x], r.from, r.currency)
      && s.db.accounts[x].cached >= r.amountMinor
    ensures Ran(s, With(s, pid, s.procs[pid].(pc := Clock), s.db, s.nextId, s.clock), [])
  {
    var ok, row := Move(pid, Ok, s.clock), Move(pid, Row(x), s.clock);
    var t := Next(s, ok);
    RanMove(t, row);
    RanAfter(s, ok, Next(t, row), []);
    assert Next(t, row) == With(s, pid, s.procs[pid].(pc := Clock), s.db, s.nextId, s.clock);
  }

  /** Both ceiling comparisons of a send pass, at a clock reading. */
  ghost predicate LimitsPass(s: State, r: Request, now: nat)
    requires r.Send?
  {
    && r.from in s.levels
    && WithinCeiling(OutgoingSince(s.db.accounts, s.db.journal, r.from, r.currency, Calendar.StartOfDay(now)),
                     r.amountMinor, Kyc.LimitsFor(s.levels[r.from]).dailyMinor)
    && WithinCeiling(OutgoingSince(s.db.accounts, s.db.journal, r.from, r.currency, Calendar.StartOfMonth(now)),
                     r.amountMinor, Kyc.LimitsFor(s.levels[r.from]).monthlyMinor)
  }

  lemma ClockMove(s: State, pid: nat)
    requires pid < |s.procs| && s.procs[pid].req.Send? && s.procs[pid].pc.Clock?
    ensures Ran(s, With(s, pid, s.procs[pid].(pc := Day, now := s.clock), s.db, s.nextId, s.clock), [])
  {
    var m := Move(pid, Ok, s.clock);
    assert Enabled(s, m);
    RanMove(s, m);
  }

  lemma DayMove(s: State, pid: nat)
    requires pid < |s.procs| && s.procs[pid].req.Send? && s.procs[pid].pc.Day?
    requires LimitsPass(s, s.procs[pid].req, s.procs[pid].now)
    ensures Ran(s, With(s, pid, s.procs[pid].(pc := Month), s.db, s.nextId, s.clock), [])
  {
    var m := Move(pid, Ok, s.clock);
    assert Enabled(s, m);
    RanMove(s, m);
  }

  lemma MonthMove(s: State, pid: nat, at: nat)
    requires pid < |s.procs| && s.procs[pid].req.Send? && s.procs[pid].pc.Month? && s.procs[pid].ids == []
    requires LimitsPass(s, s.procs[pid].req, s.procs[pid].now) && Accepts(InputOf(s.procs[pid].req)) && s.clock <= at
    ensures Ran(s, With(s, pid, s.procs[pid].(pc := Resolving), s.db, s.nextId, at), [])
  {
    var m := Move(pid, Ok, at);
    assert Enabled(s, m);
    RanMove(s, m);
  }

  lemma LimitsRun(s: State, pid: nat, at: nat)
    requires pid < |s.procs| && s.procs[pid].pc.Clock? && s.procs[pid].req.Send? && s.procs[pid].ids == []
    requires LimitsPass(s, s.procs[pid].req, s.clock) && Accepts(InputOf(s.procs[pid].req)) && s.clock <= at
    ensures Ran(s, With(s, pid, s.procs[pid].(pc := Resolving, now := s.clock), s.db, s.nextId, at), [])
  {
    var p := s.procs[pid].(now := s.clock);
    var day := With(s, pid, p.(pc := Day), s.db, s.nextId, s.clock);
    var month := With(s, pid, p.(pc := Month), s.db, s.nextId, s.clock);
    var done := With(s, pid, p.(pc := Resolving), s.db, s.nextId, at);
    ClockMove(s, pid);
    DayMove(day, pid);
    WithTwice(s, pid, day.procs[pid], s.db, s.nextId, s.clock, month.procs[pid], s.db, s.nextId, s.clock);
    MonthMove(month, pid, at);
    WithTwice(s, pid, month.procs[pid], s.db, s.nextId, s.clock, done.procs[pid], s.db, s.nextId, at);
    RanThrough(s, day, month, [], []);
    RanThrough(s, month, done, [], []);
  }

  /** A send whose checks all pass reaches its posting. */
  lemma ChecksRun(s: State, pid: nat, x: AccountId, at: nat) returns (t: State)
    requires pid < |s.procs| && s.procs[pid].req.Send? && s.procs[pid] == NewCall(s.procs[pid].req) && s.clock <= at
    requires var r := s.procs[pid].req;
      && LimitsPass(s, r, s.clock) && Accepts(InputOf(r))
      && r.amountMinor > 0 && Currency.IsSupported(r.currency) && r.spelled != r.from
      && x in s.db.accounts && IsWallet(s.db.accounts[x], r.from, r.currency)
      && s.db.accounts[x].cached >= r.amountMinor
    ensures Ran(s, t, [])
    ensures t == With(s, pid, s.procs[pid].(pc := Resolving, now := s.clock), s.db, s.nextId, at)
  {
    BalanceRun(s, pid, x);
    var u := With(s, pid, s.procs[pid].(pc := Clock), s.db, s.nextId, s.clock);
    LimitsRun(u, pid, at);
    t := With(u, pid, u.procs[pid].(pc := Resolving, now := u.clock), u.db, u.nextId, at);
    RanThrough(s, u, t, [], []);
    WithTwice(s, pid, u.procs[pid], s.db, s.nextId, s.clock, t.procs[pid], s.db, s.nextId, at);
  }

  /** A call may fail before it begins. */
  lemma NeverBegins(s: State, pid: nat, at: nat)
    requires pid < |s.procs| && s.procs[pid].pc.Fresh? && s.clock <= at
    ensures Ran(s, With(s, pid, s.procs[pid].Finish(Failure), s.db, s.nextId, at), [])
  {
    var m := Move(pid, Fault(Other), at);
    assert Enabled(s, m);
    RanMove(s, m);
  }
}
