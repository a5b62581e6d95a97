/** Deadlock freedom and termination of the posting protocol. */
module Liveness {
  import opened Ledger
  import opened Protocol
  import opened Invariants
  import opened Preservation
  import opened Least

  // ----- the wait-for graph ----------------------------------------------------

  /** Call p's next statement waits for q: for a row lock q holds, or for the fate
      of an uncommitted posting of q under the same key. */
  ghost predicate Waits(s: State, p: nat, q: nat) {
    && p < |s.procs| && q < |s.procs| && p != q && s.procs[p].pc.Locking?
    && if s.procs[p].todo != {} then exists x :: IsLeast(x, s.procs[p].todo) && x in s.procs[q].held
       else !KeyUsed(s.db.journal, s.procs[p].Key()) && s.procs[q].pc.Writing? && s.procs[q].Key() == s.procs[p].Key()
  }

  /** How far a transaction has come: still locking (and at which id), all locks
      taken, or past the point where it can wait. */
  datatype Rank = Rank(stage: nat, id: nat)

  ghost predicate HasRank(p: Proc, r: Rank) {
    if p.pc.Locking? && p.todo != {} then r.stage == 0 && IsLeast(r.id, p.todo)
    else if p.pc.Locking? then r == Rank(1, 0)
    else r == Rank(2, 0)
  }

  predicate Below(a: Rank, b: Rank) {
    a.stage < b.stage || (a.stage == b.stage && a.id < b.id)
  }

  lemma RankOf(p: Proc) returns (r: Rank)
    ensures HasRank(p, r)
  {
    if p.pc.Locking? && p.todo != {} {
      LeastExists(p.todo);
      var x :| IsLeast(x, p.todo);
      r := Rank(0, x);
    } else {
      r := if p.pc.Locking? then Rank(1, 0) else Rank(2, 0);
    }
  }

  lemma RankUnique(p: Proc, r: Rank)
    requires HasRank(p, r)
    ensures forall r' | HasRank(p, r') :: r' == r
  {
    forall r' | HasRank(p, r') ensures r' == r {
      if p.pc.Locking? && p.todo != {} {
        assert r'.id in p.todo && r.id in p.todo;
      }
    }
  }

  /** Locks are taken in ascending id order, so waiting always points up. */
  lemma WaitsPointUp(s: State, p: nat, q: nat, rp: Rank, rq: Rank)
    requires Inv(s) && Waits(s, p, q)
    requires HasRank(s.procs[p], rp) && HasRank(s.procs[q], rq)
    ensures Below(rp, rq)
  {
    assert ProcOk(s.db, s.nextId, s.procs[p]) && ProcOk(s.db, s.nextId, s.procs[q]);
  }

  ghost predicate WaitPath(s: State, path: seq<nat>) {
    && |path| >= 2
    && (forall i | 0 <= i < |path| :: path[i] < |s.procs|)
    && (forall i | 0 <= i < |path| - 1 :: Waits(s, path[i], path[i + 1]))
  }

  /** Along a path of waiting calls the rank rises. */
  lemma {:induction false} PathPointsUp(s: State, path: seq<nat>, n: nat, first: Rank, last: Rank)
    requires Inv(s) && WaitPath(s, path) && 1 <= n < |path|
    requires HasRank(s.procs[path[0]], first) && HasRank(s.procs[path[n]], last)
    ensures Below(first, last)
  {
    assert Waits(s, path[n - 1], path[n - 1 + 1]);
    if n == 1 {
      WaitsPointUp(s, path[0], path[1], first, last);
    } else {
      var mid := RankOf(s.procs[path[n - 1]]);
      PathPointsUp(s, path, n - 1, first, mid);
      WaitsPointUp(s, path[n - 1], path[n], mid, last);
    }
  }

  /** The wait-for graph of every reachable state has no cycle. */
  lemma NoDeadlockCycle(s: State, moves: seq<Move>, path: seq<nat>)
    requires Init(s) && WaitPath(Run(s, moves), path)
    ensures path[0] != path[|path| - 1]
  {
    var t := Run(s, moves);
    InitInv(s);
    RunKeepsInv(s, moves);
    assert Waits(t, path[0], path[1]) && Waits(t, path[|path| - 2], path[|path| - 1]);
    var first := RankOf(t.procs[path[0]]);
    if path[0] == path[|path| - 1] {
      PathPointsUp(t, path, |path| - 1, first, first);
    }
  }

  // ----- progress -----------------------------------------------------------------

  /** A statement outcome that is neither an error nor an ambiguous report. */
  predicate Productive(c: Choice) {
    !c.Fault? && !c.Ambiguous?
  }

  lemma {:induction false} FreshRow(ids: set<nat>) returns (x: nat)
    ensures forall y | y in ids :: y < x
    decreases |ids|
  {
    if ids == {} {
      x := 0;
    } else {
      var y :| y in ids;
      var z := FreshRow(ids - {y});
      assert forall w | w in ids :: w == y || w in ids - {y};
      x := if y < z then z else y + 1;
    }
  }

  lemma ResolveCanGo(db: Db, p: Proc) returns (c: Choice)
    requires |p.ids| < |p.Entries()|
    ensures CanResolve(db, p, c) && Productive(c)
  {
    if x :| RowIs(db, x, p.Entries()[|p.ids|]) {
      c := Row(x);
    } else {
      c := NoRow;
    }
  }

  lemma ProvisionCanGo(db: Db, p: Proc) returns (c: Choice)
    requires |p.ids| < |p.Entries()|
    ensures CanProvision(db, p, c) && Productive(c)
  {
    var e := p.Entries()[|p.ids|];
    if HasWallet(db.accounts, e.account.userId, e.currency) {
      c := NoRow;
    } else {
      var x := FreshRow(db.accounts.Keys);
      c := Row(x);
    }
  }

  lemma LockCanGo(s: State, p: nat) returns (c: Choice)
    requires p < |s.procs| && s.procs[p].pc.Locking? && |s.procs[p].ids| == |s.procs[p].Entries()|
    requires forall q: nat :: !Waits(s, p, q)
    ensures CanLock(s, p, s.procs[p], c) && Productive(c)
  {
    var a := s.procs[p];
    if a.todo != {} {
      LeastExists(a.todo);
      var x :| IsLeast(x, a.todo);
      forall q | 0 <= q < |s.procs| && q != p ensures x !in s.procs[q].held {
        assert !Waits(s, p, q);
      }
      c := Row(x);
    } else if KeyUsed(s.db.journal, a.Key()) {
      c := NoRow;
    } else {
      forall q | 0 <= q < |s.procs| && q != p && s.procs[q].pc.Writing? ensures s.procs[q].Key() != a.Key() {
        assert !Waits(s, p, q);
      }
      c := Ok;
    }
  }

  lemma WriteCanGo(db: Db, nextId: nat, p: Proc) returns (c: Choice)
    requires ProcOk(db, nextId, p) && p.pc.Writing?
    ensures CanWrite(db, p, c) && Productive(c)
  {
    if p.inserted < |p.Entries()| || p.pending == {} {
      c := Ok;
    } else {
      var x :| x in p.pending;
      WalletRows(db, p, x);
      c := Row(x);
    }
  }

  lemma ReadCanGo(accounts: map<AccountId, Account>, p: Proc) returns (c: Choice)
    requires p.req.Send?
    ensures CanRead(accounts, p, c) && Productive(c)
  {
    if x :| x in accounts && IsWallet(accounts[x], p.req.from, p.req.currency) {
      c := Row(x);
    } else {
      c := NoRow;
    }
  }

  lemma RecoverCanGo(db: Db, p: Proc) returns (c: Choice)
    ensures CanRecover(db, p, c) && Productive(c)
  {
    if !p.err.Unique? {
      c := Ok;
    } else if KeyUsed(db.journal, p.Key()) {
      var i :| 0 <= i < |db.journal| && db.journal[i].key == p.Key();
      c := Row(db.journal[i].id);
    } else {
      c := NoRow;
    }
  }

  /** A call that waits for nobody has a productive next statement. */
  lemma UnblockedCanGo(s: State, p: nat) returns (m: Move)
    requires Inv(s) && p < |s.procs| && !s.procs[p].pc.Done?
    requires forall q: nat :: !Waits(s, p, q)
    ensures Enabled(s, m) && m.pid == p && Productive(m.choice)
  {
    var a := s.procs[p];
    assert ProcOk(s.db, s.nextId, a);
    var c := Ok;
    match a.pc {
      case Balance => c := ReadCanGo(s.db.accounts, a);
      case Resolving => c := ResolveCanGo(s.db, a);
      case Reselecting => c := ResolveCanGo(s.db, a);
      case Provisioning => c := ProvisionCanGo(s.db, a);
      case Locking => c := LockCanGo(s, p);
      case Writing => c := WriteCanGo(s.db, s.nextId, a);
      case Failed => c := RecoverCanGo(s.db, a);
      case _ =>
    }
    m := Move(p, c, s.clock);
  }

  /** Among the first n calls, an unfinished one of highest rank. */
  lemma {:induction false} HighestRank(s: State, n: nat) returns (p: nat, r: Rank)
    requires n <= |s.procs| && exists q :: 0 <= q < n && !s.procs[q].pc.Done?
    ensures p < n && !s.procs[p].pc.Done? && HasRank(s.procs[p], r)
    ensures forall q, rq | 0 <= q < n && !s.procs[q].pc.Done? && HasRank(s.procs[q], rq) :: !Below(r, rq)
    decreases n
  {
    var last := n - 1;
    var rl := RankOf(s.procs[last]);
    if exists q :: 0 <= q < last && !s.procs[q].pc.Done? {
      var p0, r0 := HighestRank(s, last);
      p, r := if !s.procs[last].pc.Done? && Below(r0, rl) then last else p0,
              if !s.procs[last].pc.Done? && Below(r0, rl) then rl else r0;
      forall q, rq | 0 <= q < n && !s.procs[q].pc.Done? && HasRank(s.procs[q], rq) ensures !Below(r, rq) {
        if q == last {
          RankUnique(s.procs[last], rl);
        } else {
          assert !Below(r0, rq);
        }
      }
    } else {
      p, r := last, rl;
      RankUnique(s.procs[last], rl);
    }
  }

  /** In every reachable state with an unfinished call, some call's next statement
      can execute normally. */
  lemma Progress(s: State, moves: seq<Move>) returns (m: Move)
    requires Init(s)
    requires exists q :: 0 <= q < |Run(s, moves).procs| && !Run(s, moves).procs[q].pc.Done?
    ensures Enabled(Run(s, moves), m) && Productive(m.choice)
  {
    var t := Run(s, moves);
    InitInv(s);
    RunKeepsInv(s, moves);
    var p, r := HighestRank(t, |t.procs|);
    forall q: nat ensures !Waits(t, p, q) {
      if Waits(t, p, q) {
        var rq := RankOf(t.procs[q]);
        assert ProcOk(t.db, t.nextId, t.procs[q]);
        assert !t.procs[q].pc.Done?;
        WaitsPointUp(t, p, q, r, rq);
      }
    }
    m := UnblockedCanGo(t, p);
  }

  // ----- termination ------------------------------------------------------------

  function Budget(attempts: nat, perAttempt: nat): nat {
    if attempts == 0 then 0 else perAttempt + Budget(attempts - 1, perAttempt)
  }

  /** Statements left in the current transaction. */
  function InTransaction(p: Proc): nat {
    var n := |p.Entries()|;
    match p.pc
    case Failed => 1
    case Writing => 2 + (if p.inserted <= n then n - p.inserted else 0) + |p.pending|
    case Locking => 3 + 2 * n + |p.todo|
    case _ => 0
  }

  /** Statements before the first transaction. */
  function BeforePosting(p: Proc): nat {
    var n := |p.Entries()|;
    var unresolved := if |p.ids| <= n then n - |p.ids| else 0;
    match p.pc
    case Reselecting => 3 * unresolved - (if unresolved > 0 then 1 else 0)
    case Provisioning => 3 * unresolved
    case Resolving => 3 * unresolved + 1
    case Month => 3 * n + 2
    case Day => 3 * n + 3
    case Clock => 3 * n + 4
    case Balance => 3 * n + 5
    case Fresh => 3 * n + 6
    case _ => 0
  }

  function AttemptCost(p: Proc): nat { 3 * |p.Entries()| + 6 }

  /** An upper bound on the moves a call still has. */
  function Remaining(p: Proc): nat {
    match p.pc
    case Done => 0
    case Ready => if p.attempt < MAX_RETRIES then Budget(MAX_RETRIES - p.attempt, AttemptCost(p)) else 0
    case Failed => Later(p) + InTransaction(p)
    case Writing => Later(p) + InTransaction(p)
    case Locking => Later(p) + InTransaction(p)
    case _ => Budget(MAX_RETRIES, AttemptCost(p)) + BeforePosting(p)
  }

  /** The budget of the attempts after the current one. */
  function Later(p: Proc): nat {
    if p.attempt < MAX_RETRIES then Budget(MAX_RETRIES - 1 - p.attempt, AttemptCost(p)) else 0
  }

  lemma {:induction false} FewWallets(entries: seq<EntryInput>, ids: seq<AccountId>)
    requires |ids| == |entries|
    ensures |WalletIds(entries, ids)| <= |entries|
  {
    if entries == [] {
      assert WalletIds(entries, ids) == {};
    } else {
      var n := |entries| - 1;
      FewWallets(entries[..n], ids[..n]);
      WalletIdsStep(entries, ids, n);
      assert entries[..n + 1] == entries && ids[..n + 1] == ids;
    }
  }

  lemma CheckingSpends(s: State, p: Proc, c: Choice, clock: nat)
    requires ProcOk(s.db, s.nextId, p)
    requires p.pc.Fresh? || p.pc.Balance? || p.pc.Clock? || p.pc.Day? || p.pc.Month?
    requires p.pc.Balance? && c.Row? ==> c.id in s.db.accounts && s.db.accounts[c.id].Wallet?
    ensures Remaining(QuietEffect(s, p, c, clock)) < Remaining(p)
  {
  }

  lemma ResolvingSpends(s: State, p: Proc, c: Choice, clock: nat)
    requires ProcOk(s.db, s.nextId, p)
    requires (p.pc.Resolving? || p.pc.Reselecting?) && |p.ids| < |p.Entries()|
    requires CanResolve(s.db, p, c)
    ensures Remaining(QuietEffect(s, p, c, clock)) < Remaining(p)
  {
  }

  lemma RestartSpends(s: State, p: Proc, c: Choice, clock: nat)
    requires ProcOk(s.db, s.nextId, p)
    requires p.pc.Ready? || (p.pc.Failed? && CanRecover(s.db, p, c))
    ensures Remaining(QuietEffect(s, p, c, clock)) < Remaining(p)
  {
    var n := |p.Entries()|;
    FewWallets(p.Entries(), p.ids);
    assert Budget(MAX_RETRIES - p.attempt, 3 * n + 6) == 3 * n + 6 + Budget(MAX_RETRIES - 1 - p.attempt, 3 * n + 6);
  }

  lemma ProvisionSpends(s: State, p: Proc, c: Choice)
    requires ProcOk(s.db, s.nextId, p) && p.pc.Provisioning? && CanProvision(s.db, p, c)
    ensures Remaining(ProvisionEffect(s, p, c).proc) < Remaining(p)
  {
  }

  predicate InTx(p: Proc) { p.pc.Failed? || p.pc.Locking? || p.pc.Writing? }

  lemma LockSpends(s: State, pid: nat, p: Proc, c: Choice)
    requires ProcOk(s.db, s.nextId, p) && p.pc.Locking? && CanLock(s, pid, p, c)
    ensures var q := LockEffect(s, p, c).proc;
      InTransaction(q) < InTransaction(p) && InTx(q) && q.req == p.req && q.attempt == p.attempt
  {
    FewWallets(p.Entries(), p.ids);
  }

  lemma WriteSpends(s: State, p: Proc, c: Choice)
    requires ProcOk(s.db, s.nextId, p) && p.pc.Writing? && CanWrite(s.db, p, c)
    ensures var q := WriteEffect(s, p, c).proc;
      InTransaction(q) < InTransaction(p) && (InTx(q) || q.pc.Done?) && q.req == p.req && q.attempt == p.attempt
  {
  }

  lemma SpentInTx(p: Proc, q: Proc)
    requires InTx(p) && (InTx(q) || q.pc.Done?)
    requires q.req == p.req && q.attempt == p.attempt && InTransaction(q) < InTransaction(p)
    ensures Remaining(q) < Remaining(p)
  {
  }

  lemma MoveSpends(s: State, m: Move)
    requires Inv(s) && Enabled(s, m)
    ensures Remaining(EffectOf(s, m).proc) < Remaining(s.procs[m.pid])
  {
    var p := s.procs[m.pid];
    assert ProcOk(s.db, s.nextId, p);
    match p.pc
    case Provisioning => ProvisionSpends(s, p, m.choice);
    case Locking =>
      LockSpends(s, m.pid, p, m.choice);
      SpentInTx(p, LockEffect(s, p, m.choice).proc);
    case Writing =>
      WriteSpends(s, p, m.choice);
      SpentInTx(p, WriteEffect(s, p, m.choice).proc);
    case Ready => RestartSpends(s, p, m.choice, m.clock);
    case Failed => RestartSpends(s, p, m.choice, m.clock);
    case Resolving => ResolvingSpends(s, p, m.choice, m.clock);
    case Reselecting => ResolvingSpends(s, p, m.choice, m.clock);
    case _ => CheckingSpends(s, p, m.choice, m.clock);
  }

  function Total(procs: seq<Proc>): nat {
    if procs == [] then 0 else Total(procs[..|procs| - 1]) + Remaining(procs[|procs| - 1])
  }

  lemma {:induction false} TotalUpdate(procs: seq<Proc>, i: nat, p: Proc)
    requires i < |procs|
    ensures Total(procs[i := p]) + Remaining(procs[i]) == Total(procs) + Remaining(p)
  {
    var n := |procs| - 1;
    if i < n {
      TotalUpdate(procs[..n], i, p);
      assert procs[i := p][..n] == procs[..n][i := p];
    } else {
      assert procs[i := p][..n] == procs[..n];
    }
  }

  /** How many of the moves were enabled when their turn came. */
  ghost function Executed(s: State, moves: seq<Move>): nat {
    if moves == [] then 0
    else Executed(s, moves[..|moves| - 1])
         + if Enabled(Run(s, moves[..|moves| - 1]), moves[|moves| - 1]) then 1 else 0
  }

  /** Retries are bounded, so every run does: no schedule and no failure pattern
      executes more statements than the calls' initial budgets. */
  lemma {:induction false} RunsTerminate(s: State, moves: seq<Move>)
    requires Inv(s)
    ensures Executed(s, moves) + Total(Run(s, moves).procs) <= Total(s.procs)
  {
    if moves != [] {
      var earlier := moves[..|moves| - 1];
      var t, m := Run(s, earlier), moves[|moves| - 1];
      RunsTerminate(s, earlier);
      RunKeepsInv(s, earlier);
      if Enabled(t, m) {
        MoveSpends(t, m);
        TotalUpdate(t.procs, m.pid, Next(t, m).procs[m.pid]);
      }
    }
  }
}
