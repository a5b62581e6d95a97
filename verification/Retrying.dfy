/** The retry loop over whole runs: a transaction that ends in a retryable error is
    followed by another one, and a call gives up on such errors only after eight. */
module Retrying {
  import opened Ledger
  import opened Protocol
  import opened Invariants
  import opened Preservation

  /** A move that rolls a call's transaction back. */
  ghost predicate RollsBack(s: State, m: Move, pid: nat) {
    && Enabled(s, m) && m.pid == pid && !s.procs[pid].pc.Failed? && Next(s, m).procs[pid].pc.Failed?
  }

  /** The errors that ended a call's transactions, in order. */
  ghost function Errors(s: State, moves: seq<Move>, pid: nat): seq<Error> {
    if moves == [] then []
    else
      var t, m := Run(s, moves[..|moves| - 1]), moves[|moves| - 1];
      Errors(s, moves[..|moves| - 1], pid) + if RollsBack(t, m, pid) then [Next(t, m).procs[pid].err] else []
  }

  predicate OnlyRetryable(errors: seq<Error>) {
    forall i | 0 <= i < |errors| :: errors[i] == Retryable
  }

  /** Where a call stands after its transactions ended with these errors. */
  ghost predicate Stands(p: Proc, errors: seq<Error>) {
    match p.pc
    case Ready => OnlyRetryable(errors) && p.attempt == |errors| < 8
    case Locking => OnlyRetryable(errors) && p.attempt == |errors| < 8
    case Writing => OnlyRetryable(errors) && p.attempt == |errors| < 8
    case Failed =>
      && errors != [] && p.attempt == |errors| - 1 < 8
      && OnlyRetryable(errors[..|errors| - 1]) && errors[|errors| - 1] == p.err
    case Done => Ended(p, errors)
    case _ => errors == []
  }

  /** How a call may end. All its transactions' errors but the last are retryable. If the
      last one is too, the call failed exactly when there are eight of them, and was posted
      otherwise. An error of another kind was not retried. Without any error, its first
      transaction was committed or it never began one. */
  ghost predicate Ended(p: Proc, errors: seq<Error>) {
    if errors == [] || errors[|errors| - 1].Retryable? then
      && OnlyRetryable(errors) && |errors| <= 8
      && (p.outcome.Success? ==> !p.outcome.replayed)
      && (errors != [] ==> (p.outcome.Failure? <==> |errors| == 8))
    else
      && OnlyRetryable(errors[..|errors| - 1]) && |errors| <= 8
      && (p.outcome.Success? ==> errors[|errors| - 1].Unique? && p.outcome.replayed)
  }

  /** The errors after a call went from p to q. */
  function After(p: Proc, q: Proc, errors: seq<Error>): seq<Error> {
    if !p.pc.Failed? && q.pc.Failed? then errors + [q.err] else errors
  }

  lemma RolledBack(p: Proc, e: Error, errors: seq<Error>)
    requires OnlyRetryable(errors) && p.attempt == |errors| < 8
    ensures Stands(p.RollBack(e), errors + [e])
  {
    assert (errors + [e])[..|errors|] == errors;
  }

  lemma RecoveryStands(p: Proc, c: Choice, errors: seq<Error>)
    requires p.pc.Failed? && Stands(p, errors)
    ensures Stands(AfterFailure(p, c), errors)
  {
    if p.err.Retryable? && p.attempt + 1 < MAX_RETRIES {
      assert errors == errors[..|errors| - 1] + [Retryable];
    }
  }

  lemma QuietStands(s: State, p: Proc, c: Choice, clock: nat, errors: seq<Error>)
    requires ProcOk(s.db, s.nextId, p) && Stands(p, errors)
    requires !p.pc.Provisioning? && !p.pc.Locking? && !p.pc.Writing? && !p.pc.Failed? && !p.pc.Done?
    requires p.pc.Balance? && c.Row? ==> c.id in s.db.accounts && s.db.accounts[c.id].Wallet?
    ensures var q := QuietEffect(s, p, c, clock); Stands(q, After(p, q, errors))
  {
    if p.pc.Ready? && c.Fault? { RolledBack(p, c.err, errors); }
  }

  lemma LockStands(s: State, p: Proc, c: Choice, errors: seq<Error>)
    requires p.pc.Locking? && |p.ids| == |p.Entries()| && Stands(p, errors)
    ensures var q := LockEffect(s, p, c).proc; Stands(q, After(p, q, errors))
  {
    match c
    case NoRow => RolledBack(p, Unique, errors);
    case Fault(e) => RolledBack(p, e, errors);
    case _ =>
  }

  lemma WriteStands(s: State, p: Proc, c: Choice, errors: seq<Error>)
    requires p.pc.Writing? && |p.ids| == |p.Entries()| && p.inserted <= |p.Entries()| && Stands(p, errors)
    requires CanWrite(s.db, p, c)
    ensures var q := WriteEffect(s, p, c).proc; Stands(q, After(p, q, errors))
  {
    match c
    case Fault(e) => RolledBack(p, e, errors);
    case Ambiguous(_, e) => RolledBack(p, e, errors);
    case _ => RolledBack(p, Other, errors);
  }

  lemma ProvisionStands(s: State, p: Proc, c: Choice, errors: seq<Error>)
    requires p.pc.Provisioning? && |p.ids| < |p.Entries()| && Stands(p, errors)
    ensures var q := ProvisionEffect(s, p, c).proc; Stands(q, After(p, q, errors))
  {
  }

  lemma MoverStands(s: State, m: Move, errors: seq<Error>)
    requires Inv(s) && Enabled(s, m) && Stands(s.procs[m.pid], errors)
    ensures var p, q := s.procs[m.pid], Next(s, m).procs[m.pid]; Stands(q, After(p, q, errors))
  {
    var p := s.procs[m.pid];
    assert ProcOk(s.db, s.nextId, p);
    match p.pc {
      case Provisioning => ProvisionStands(s, p, m.choice, errors);
      case Locking => LockStands(s, p, m.choice, errors);
      case Writing => WriteStands(s, p, m.choice, errors);
      case Failed => RecoveryStands(p, m.choice, errors);
      case _ => QuietStands(s, p, m.choice, m.clock, errors);
    }
  }

  lemma MoveKeepsStands(s: State, m: Move, pid: nat, errors: seq<Error>)
    requires Inv(s) && Enabled(s, m) && pid < |s.procs| && Stands(s.procs[pid], errors)
    ensures Stands(Next(s, m).procs[pid], errors + if RollsBack(s, m, pid) then [Next(s, m).procs[pid].err] else [])
  {
    assert errors + [] == errors;
    if m.pid == pid { MoverStands(s, m, errors); }
  }

  /** In every run, whatever interleaves and fails: where each call stands is exactly what
      its transactions' errors say. */
  lemma {:induction false} RetriesEight(s: State, moves: seq<Move>, pid: nat)
    requires Inv(s) && pid < |s.procs| && s.procs[pid].pc.Fresh?
    ensures pid < |Run(s, moves).procs| && Stands(Run(s, moves).procs[pid], Errors(s, moves, pid))
  {
    if moves != [] {
      var earlier, m := moves[..|moves| - 1], moves[|moves| - 1];
      var t := Run(s, earlier);
      RetriesEight(s, earlier, pid);
      RunKeepsInv(s, earlier);
      if Enabled(t, m) {
        MoveKeepsStands(t, m, pid, Errors(s, earlier, pid));
      } else {
        assert Errors(s, moves, pid) == Errors(s, earlier, pid) + [] == Errors(s, earlier, pid);
      }
    }
  }

  // ----- calls none of whose own statements fails ------------------------------------------

  predicate Faultless(c: Choice) {
    !c.Fault? && !c.Ambiguous?
  }

  ghost predicate FaultlessCall(moves: seq<Move>, pid: nat) {
    forall i | 0 <= i < |moves| && moves[i].pid == pid :: Faultless(moves[i].choice)
  }

  /** The next account does not exist and cannot be provisioned. */
  ghost predicate SystemMissing(db: Db, p: Proc) {
    && |p.ids| < |p.Entries()| && p.Entries()[|p.ids|].account.IsSystem()
    && forall x :: !RowIs(db, x, p.Entries()[|p.ids|])
  }

  /** Where such a call stands: a lost race for a wallet means that the wallet is there, a
      unique violation that the key is. */
  ghost predicate FaultlessStands(db: Db, p: Proc, errors: seq<Error>) {
    match p.pc
    case Reselecting =>
      && errors == [] && |p.ids| < |p.Entries()|
      && var e := p.Entries()[|p.ids|]; HasWallet(db.accounts, e.account.userId, e.currency)
    case Failed =>
      errors == [p.err] && (p.err.Other? || (p.err.Unique? && KeyUsed(db.journal, p.Key())))
    case Done => FaultlessEnd(db, p, errors)
    case _ => errors == []
  }

  /** Races never fail a call. A bare posting fails only when it is invalid, names a system
      account that does not exist, or its transaction is refused. */
  ghost predicate FaultlessEnd(db: Db, p: Proc, errors: seq<Error>) {
    && (errors == [] || errors == [Unique] || errors == [Other])
    && (errors == [Unique] ==> p.outcome.Success? && p.outcome.replayed)
    && (errors == [Other] ==> p.outcome.Failure?)
    && (errors == [] && p.outcome.Failure? && p.req.Direct? ==> !Accepts(InputOf(p.req)) || SystemMissing(db, p))
  }

  lemma KeptByOthers(db: Db, db': Db, p: Proc, errors: seq<Error>)
    requires Grows(db, db') && NewAreWallets(db, db') && FaultlessStands(db, p, errors)
    ensures FaultlessStands(db', p, errors)
  {
    if p.pc.Reselecting? {
      var e := p.Entries()[|p.ids|];
      var x :| x in db.accounts && IsWallet(db.accounts[x], e.account.userId, e.currency);
      assert IsWallet(db'.accounts[x], e.account.userId, e.currency);
    }
    if KeyUsed(db.journal, p.Key()) {
      var i :| 0 <= i < |db.journal| && db.journal[i].key == p.Key();
      assert db'.journal[i].key == p.Key();
    }
    if SystemMissing(db, p) {
      forall x ensures !RowIs(db', x, p.Entries()[|p.ids|]) {
        assert !RowIs(db, x, p.Entries()[|p.ids|]);
      }
    }
  }

  /** No system account is ever added. */
  ghost predicate NewAreWallets(db: Db, db': Db) {
    forall x | x in db'.accounts && x !in db.accounts :: db'.accounts[x].Wallet?
  }

  lemma MoveAddsWallets(s: State, m: Move)
    requires Inv(s) && Enabled(s, m)
    ensures Grows(s.db, Next(s, m).db) && NewAreWallets(s.db, Next(s, m).db)
  {
    MoveIsAtomic(s, m);
    TablesKept(s, m);
  }

  lemma QuietFaultless(s: State, p: Proc, c: Choice, clock: nat, errors: seq<Error>)
    requires ProcOk(s.db, s.nextId, p) && FaultlessStands(s.db, p, errors) && Faultless(c)
    requires !p.pc.Provisioning? && !p.pc.Locking? && !p.pc.Writing? && !p.pc.Failed? && !p.pc.Done?
    requires p.pc.Balance? && c.Row? ==> c.id in s.db.accounts && s.db.accounts[c.id].Wallet?
    requires p.pc.Resolving? || p.pc.Reselecting? ==> CanResolve(s.db, p, c)
    requires p.pc.Fresh? || p.pc.Ready? ==> c.Ok?
    ensures var q := QuietEffect(s, p, c, clock); FaultlessStands(s.db, q, After(p, q, errors))
  {
    if p.pc.Reselecting? && c.NoRow? {
      var e := p.Entries()[|p.ids|];
      var x :| x in s.db.accounts && IsWallet(s.db.accounts[x], e.account.userId, e.currency);
      assert RowIs(s.db, x, e);
    }
  }

  lemma ProvisionFaultless(s: State, p: Proc, c: Choice, errors: seq<Error>)
    requires ProcOk(s.db, s.nextId, p) && FaultlessStands(s.db, p, errors) && Faultless(c)
    requires p.pc.Provisioning? && CanProvision(s.db, p, c)
    ensures var e := ProvisionEffect(s, p, c); FaultlessStands(e.db, e.proc, After(p, e.proc, errors))
  {
  }

  lemma LockFaultless(s: State, pid: nat, p: Proc, c: Choice, errors: seq<Error>)
    requires FaultlessStands(s.db, p, errors) && Faultless(c) && p.pc.Locking? && CanLock(s, pid, p, c)
    ensures var q := LockEffect(s, p, c).proc; FaultlessStands(s.db, q, After(p, q, errors))
  {
  }

  lemma WriteFaultless(s: State, p: Proc, c: Choice, errors: seq<Error>)
    requires FaultlessStands(s.db, p, errors) && Faultless(c) && p.pc.Writing? && CanWrite(s.db, p, c)
    ensures var e := WriteEffect(s, p, c); FaultlessStands(e.db, e.proc, After(p, e.proc, errors))
  {
  }

  lemma RecoveryFaultless(db: Db, p: Proc, c: Choice, errors: seq<Error>)
    requires FaultlessStands(db, p, errors) && Faultless(c) && p.pc.Failed? && CanRecover(db, p, c)
    ensures FaultlessStands(db, AfterFailure(p, c), errors)
  {
  }

  lemma MoverFaultless(s: State, m: Move, errors: seq<Error>)
    requires Inv(s) && Enabled(s, m) && FaultlessStands(s.db, s.procs[m.pid], errors) && Faultless(m.choice)
    ensures var p, t := s.procs[m.pid], Next(s, m);
      FaultlessStands(t.db, t.procs[m.pid], After(p, t.procs[m.pid], errors))
  {
    var p := s.procs[m.pid];
    assert ProcOk(s.db, s.nextId, p);
    match p.pc {
      case Provisioning => ProvisionFaultless(s, p, m.choice, errors);
      case Locking => LockFaultless(s, m.pid, p, m.choice, errors);
      case Writing => WriteFaultless(s, p, m.choice, errors);
      case Failed => RecoveryFaultless(s.db, p, m.choice, errors);
      case _ => QuietFaultless(s, p, m.choice, m.clock, errors);
    }
  }

  lemma MoveKeepsFaultless(s: State, m: Move, pid: nat, errors: seq<Error>)
    requires Inv(s) && Enabled(s, m) && pid < |s.procs| && FaultlessStands(s.db, s.procs[pid], errors)
    requires m.pid == pid ==> Faultless(m.choice)
    ensures FaultlessStands(Next(s, m).db, Next(s, m).procs[pid],
                            errors + if RollsBack(s, m, pid) then [Next(s, m).procs[pid].err] else [])
  {
    assert errors + [] == errors;
    if m.pid == pid {
      MoverFaultless(s, m, errors);
    } else {
      MoveAddsWallets(s, m);
      KeptByOthers(s.db, Next(s, m).db, s.procs[pid], errors);
    }
  }

  /** Races with other calls, however they interleave and fail, never fail a call none of
      whose own statements fails: a lost wallet insert finds the wallet, a used key is
      answered with the posting recorded under it, and a bare posting fails only when it is
      invalid, names a system account that does not exist, or is refused by the trigger or
      by the range of bigint. */
  lemma {:induction false} RacesNeverFail(s: State, moves: seq<Move>, pid: nat)
    requires Inv(s) && pid < |s.procs| && s.procs[pid].pc.Fresh? && FaultlessCall(moves, pid)
    ensures var t := Run(s, moves);
      pid < |t.procs| && FaultlessStands(t.db, t.procs[pid], Errors(s, moves, pid))
  {
    if moves != [] {
      var earlier, m := moves[..|moves| - 1], moves[|moves| - 1];
      var t := Run(s, earlier);
      RacesNeverFail(s, earlier, pid);
      RunKeepsInv(s, earlier);
      if Enabled(t, m) {
        MoveKeepsFaultless(t, m, pid, Errors(s, earlier, pid));
      } else {
        assert Errors(s, moves, pid) == Errors(s, earlier, pid) + [] == Errors(s, earlier, pid);
      }
    }
  }
}
