/** Service-level runs: every call is a top-up or a send. The checks of a send run
    before, and outside, the row locks, so what is promised of a user's wallet is
    promised while that user has at most one send in flight in its currency.
    Everything else interleaves freely. */
module Transfers {
  import opened Ledger
  import opened Protocol
  import opened Invariants
  import opened Preservation
  import opened Spending

  ghost predicate ServiceOnly(s: State) {
    forall p | 0 <= p < |s.procs| :: !s.procs[p].req.Direct?
  }

  predicate InFlight(p: Proc) {
    p.req.Send? && !p.pc.Fresh? && !p.pc.Done?
  }

  predicate Pays(r: Request, user: string, currency: string) {
    r.Send? && r.from == user && r.currency == currency
  }

  /** At most one send of the user in the currency in flight. */
  ghost predicate SingleFlight(s: State, user: string, currency: string) {
    forall p, q | 0 <= p < |s.procs| && 0 <= q < |s.procs| && p != q && InFlight(s.procs[p]) && InFlight(s.procs[q]) ::
      Pays(s.procs[p].req, user, currency) ==> !Pays(s.procs[q].req, user, currency)
  }

  ghost predicate Guarded(s: State, moves: seq<Move>, user: string, currency: string) {
    SingleFlight(Run(s, moves), user, currency) && (moves == [] || Guarded(s, moves[..|moves| - 1], user, currency))
  }

  ghost predicate AllGuarded(s: State, moves: seq<Move>, currency: string) {
    forall user :: Guarded(s, moves, user, currency)
  }

  // ----- what a service posting does to a wallet ---------------------------------

  /** Net effect of a request's posting on a wallet row, by the row's identity. */
  function Change(r: Request, a: Account): int {
    match r
    case Direct(_) => 0
    case TopUp(user, amount, currency, _) => if IsWallet(a, user, currency) then amount else 0
    case Send(from, to, _, amount, currency, _) =>
      (if IsWallet(a, to, currency) then amount else 0) - (if IsWallet(a, from, currency) then amount else 0)
  }

  /** The part of it the spending query counts. */
  function Spent(r: Request, a: Account): int {
    if r.Send? && IsWallet(a, r.from, r.currency) then r.amountMinor else 0
  }

  /** Past the guards, amounts are positive. */
  predicate PastGuards(r: Request) {
    match r
    case Direct(_) => true
    case TopUp(_, amount, _, _) => amount > 0
    case Send(_, _, _, amount, _, _) => amount > 0
  }

  predicate ReqOk(p: Proc) {
    p.pc.Fresh? || p.pc.Done? || PastGuards(p.req)
  }

  ghost predicate ReqsOk(s: State) {
    ServiceOnly(s) && forall p | 0 <= p < |s.procs| :: ReqOk(s.procs[p])
  }

  lemma TwoRows(e: seq<JournalEntry>, x: AccountId)
    requires |e| == 2
    ensures OnAccount(e, x) == (if e[0].account == x then Signed(e[0].direction, e[0].amountMinor) else 0)
                             + (if e[1].account == x then Signed(e[1].direction, e[1].amountMinor) else 0)
    ensures DebitOn(e, x) == (if e[0].account == x && e[0].direction == Debit then e[0].amountMinor else 0)
                           + (if e[1].account == x && e[1].direction == Debit then e[1].amountMinor else 0)
  {
    assert e[..1][..0] == [];
    assert OnAccount(e[..1], x) == if e[0].account == x then Signed(e[0].direction, e[0].amountMinor) else 0;
    assert DebitOn(e[..1], x) == if e[0].account == x && e[0].direction == Debit then e[0].amountMinor else 0;
  }

  /** The rows of a send or top-up move money exactly as its request says. */
  lemma RequestRows(db: Db, r: Request, ids: seq<AccountId>, x: AccountId)
    requires WalletsUnique(db.accounts) && !r.Direct? && PastGuards(r)
    requires |ids| == |InputOf(r).entries| && Resolves(db, InputOf(r).entries, ids)
    requires x in db.accounts && db.accounts[x].Wallet?
    ensures var rows := Resolved(InputOf(r).entries, ids);
      && OnAccount(rows, x) == Delta(rows, x) == Change(r, db.accounts[x])
      && DebitOn(rows, x) == Spent(r, db.accounts[x])
  {
    var e := InputOf(r).entries;
    assert RowIs(db, ids[0], e[0]) && RowIs(db, ids[1], e[1]);
    TwoRows(Resolved(e, ids), x);
  }

  lemma RowsEffect(db: Db, p: Proc, x: AccountId)
    requires WalletsUnique(db.accounts) && !p.req.Direct? && ReqOk(p) && !p.pc.Fresh? && !p.pc.Done?
    requires |p.ids| == |p.Entries()| && Resolves(db, p.Entries(), p.ids)
    requires x in db.accounts && db.accounts[x].Wallet?
    ensures OnAccount(p.Rows(), x) == Change(p.req, db.accounts[x])
    ensures Delta(p.Rows(), x) == Change(p.req, db.accounts[x])
    ensures DebitOn(p.Rows(), x) == Spent(p.req, db.accounts[x])
  {
    RequestRows(db, p.req, p.ids, x);
  }

  // ----- no overdraft --------------------------------------------------------------

  ghost predicate NonNegative(accounts: map<AccountId, Account>) {
    forall x | x in accounts && accounts[x].Wallet? :: accounts[x].cached >= 0
  }

  ghost predicate NonNegativeFor(accounts: map<AccountId, Account>, user: string, currency: string) {
    forall x | x in accounts && IsWallet(accounts[x], user, currency) :: accounts[x].cached >= 0
  }

  predicate PastChecks(p: Proc) {
    !p.pc.Fresh? && !p.pc.Balance? && !p.pc.Clock? && !p.pc.Day? && !p.pc.Month?
  }

  /** Past the balance check and bound for a posting of its own: still checking, or under
      a key not yet in the journal. */
  ghost predicate Pending(db: Db, p: Proc) {
    && p.req.Send? && !p.pc.Fresh? && !p.pc.Balance? && !p.pc.Done?
    && (PastChecks(p) ==> !KeyUsed(db.journal, p.Key()))
  }

  ghost predicate Funded(db: Db, p: Proc) {
    Pending(db, p) ==>
      && HasWallet(db.accounts, p.req.from, p.req.currency)
      && forall x | x in db.accounts && IsWallet(db.accounts[x], p.req.from, p.req.currency) ::
           db.accounts[x].cached >= p.req.amountMinor
  }

  /** The user's wallet in the currency is not overdrawn, and covers each pending send. */
  ghost predicate FundInv(s: State, user: string, currency: string) {
    && ReqsOk(s) && NonNegativeFor(s.db.accounts, user, currency)
    && forall p | 0 <= p < |s.procs| && Pays(s.procs[p].req, user, currency) :: Funded(s.db, s.procs[p])
  }

  /** A call past its checks keeps its clock reading, and begins its transactions
      no earlier than the clock. */
  predicate KeepsReading(p: Proc, q: Proc, clock: nat) {
    && q.now == p.now && q.req == p.req && PastChecks(q)
    && (q.pc.Locking? || q.pc.Writing? ==> q.at == clock || (q.at == p.at && (p.pc.Locking? || p.pc.Writing?)))
  }

  lemma QuietKeepsReading(s: State, p: Proc, c: Choice, clock: nat)
    requires ProcOk(s.db, s.nextId, p) && PastChecks(p)
    requires !p.pc.Provisioning? && !p.pc.Locking? && !p.pc.Writing?
    ensures KeepsReading(p, QuietEffect(s, p, c, clock), clock)
  {
  }

  lemma WriteKeepsReading(s: State, p: Proc, c: Choice, clock: nat)
    requires ProcOk(s.db, s.nextId, p) && p.pc.Writing? && CanWrite(s.db, p, c)
    ensures KeepsReading(p, WriteEffect(s, p, c).proc, clock)
  {
  }

  lemma PostingKeepsReading(s: State, m: Move)
    requires Inv(s) && Enabled(s, m) && PastChecks(s.procs[m.pid])
    ensures KeepsReading(s.procs[m.pid], Next(s, m).procs[m.pid], m.clock)
  {
    var p := s.procs[m.pid];
    assert ProcOk(s.db, s.nextId, p);
    match p.pc {
      case Provisioning =>
      case Locking =>
      case Writing => WriteKeepsReading(s, p, m.choice, m.clock);
      case _ => QuietKeepsReading(s, p, m.choice, m.clock);
    }
  }

  /** Only the balance check makes a call pending; it has just read the balance. */
  lemma CheckingFunded(s: State, p: Proc, c: Choice, clock: nat)
    requires ProcOk(s.db, s.nextId, p) && Funded(s.db, p) && WalletsUnique(s.db.accounts)
    requires !PastChecks(p) && (p.pc.Balance? ==> CanRead(s.db.accounts, p, c))
    ensures Funded(s.db, QuietEffect(s, p, c, clock))
  {
    if p.pc.Balance? && c.Row? {
      assert IsWallet(s.db.accounts[c.id], p.req.from, p.req.currency);
    }
  }

  lemma MoverFunded(s: State, m: Move)
    requires Inv(s) && Enabled(s, m) && EventOf(s, m).None? && Funded(s.db, s.procs[m.pid])
    ensures Funded(s.db, Next(s, m).procs[m.pid])
  {
    var p := s.procs[m.pid];
    assert ProcOk(s.db, s.nextId, p);
    if PastChecks(p) {
      PostingKeepsReading(s, m);
    } else {
      CheckingFunded(s, p, m.choice, m.clock);
    }
  }

  /** A committing send of the user is covered; every other posting only adds. */
  lemma PostingKeepsNonNegative(s: State, p: Proc, user: string, currency: string)
    requires Inv(s) && FundInv(s, user, currency) && p in s.procs && p.pc.Writing? && !KeyUsed(s.db.journal, p.Key())
    requires |p.ids| == |p.Entries()|
    ensures NonNegativeFor(PostAccounts(s.db.accounts, p.Rows()), user, currency)
  {
    var i :| 0 <= i < |s.procs| && s.procs[i] == p;
    assert ProcOk(s.db, s.nextId, s.procs[i]) && ReqOk(s.procs[i]);
    assert Pays(p.req, user, currency) ==> Funded(s.db, s.procs[i]);
    forall x | x in s.db.accounts && IsWallet(s.db.accounts[x], user, currency)
      ensures s.db.accounts[x].cached + Delta(p.Rows(), x) >= 0
    {
      RowsEffect(s.db, p, x);
    }
  }

  lemma KeyStaysUsed(s: State, m: Move, key: string)
    requires Inv(s) && Enabled(s, m)
    ensures KeyUsed(s.db.journal, key) ==> KeyUsed(Next(s, m).db.journal, key)
  {
    TablesKept(s, m);
    if KeyUsed(s.db.journal, key) {
      var i :| 0 <= i < |s.db.journal| && s.db.journal[i].key == key;
      assert Next(s, m).db.journal[i].key == key;
    }
  }

  /** A provisioned wallet is a new identity with balance zero. */
  lemma ProvisionKeepsFunded(db: Db, q: Proc, id: AccountId, user: string, currency: string)
    requires CanApply(db, Provisioned(id, user, currency)) && Funded(db, q)
    ensures Funded(Apply(db, Provisioned(id, user, currency)), q)
  {
    var db' := Apply(db, Provisioned(id, user, currency));
    if Pending(db', q) {
      var x :| x in db.accounts && IsWallet(db.accounts[x], q.req.from, q.req.currency);
      assert x in db'.accounts && db'.accounts[x] == db.accounts[x];
    }
  }

  /** A commit debits only its own sender's wallet, and adds to no other less than zero. */
  lemma PostingKeepsFunded(db: Db, nextId: nat, p: Proc, a: Proc)
    requires WalletsUnique(db.accounts) && ProcOk(db, nextId, p) && p.pc.Writing? && ReqOk(p) && !p.req.Direct?
    requires Funded(db, a)
    requires var db' := Apply(db, Posted(PostingOf(p))); KeyUsed(db.journal, a.Key()) ==> KeyUsed(db'.journal, a.Key())
    requires InFlight(a) && p.req.Send? ==> p.req.from != a.req.from || p.req.currency != a.req.currency
    ensures Funded(Apply(db, Posted(PostingOf(p))), a)
  {
    var db' := Apply(db, Posted(PostingOf(p)));
    if Pending(db', a) {
      var x :| x in db.accounts && IsWallet(db.accounts[x], a.req.from, a.req.currency);
      assert x in db'.accounts && IsWallet(db'.accounts[x], a.req.from, a.req.currency);
      forall y | y in db'.accounts && IsWallet(db'.accounts[y], a.req.from, a.req.currency)
        ensures db'.accounts[y].cached >= a.req.amountMinor
      {
        RowsEffect(db, p, y);
      }
    }
  }

  lemma MoveKeepsReqs(s: State, m: Move)
    requires Inv(s) && ReqsOk(s) && Enabled(s, m)
    ensures ReqsOk(Next(s, m))
    ensures forall p | 0 <= p < |s.procs| :: Next(s, m).procs[p].req == s.procs[p].req
  {
    MoverReq(s, m);
  }

  /** A committed call is pending no longer. */
  lemma CommittedNotPending(s: State, m: Move)
    requires Inv(s) && Enabled(s, m) && Commits(s.procs[m.pid], m.choice)
    ensures !Pending(Next(s, m).db, Next(s, m).procs[m.pid])
  {
    KeyNowUsed(s, m);
    PostingKeepsReading(s, m);
  }

  lemma CommitKeepsFundInv(s: State, m: Move, user: string, currency: string)
    requires Inv(s) && FundInv(s, user, currency) && SingleFlight(s, user, currency)
    requires Enabled(s, m) && Commits(s.procs[m.pid], m.choice)
    ensures FundInv(Next(s, m), user, currency)
  {
    var t := Next(s, m);
    MoveIsAtomic(s, m);
    MoveKeepsReqs(s, m);
    PostingKeepsNonNegative(s, s.procs[m.pid], user, currency);
    CommittedNotPending(s, m);
    assert ProcOk(s.db, s.nextId, s.procs[m.pid]) && ReqOk(s.procs[m.pid]);
    forall q | 0 <= q < |s.procs| && q != m.pid && Pays(s.procs[q].req, user, currency)
      ensures Funded(t.db, s.procs[q])
    {
      assert Funded(s.db, s.procs[q]);
      KeyStaysUsed(s, m, s.procs[q].Key());
      PostingKeepsFunded(s.db, s.nextId, s.procs[m.pid], s.procs[q]);
    }
  }

  lemma MoveKeepsFundInv(s: State, m: Move, user: string, currency: string)
    requires Inv(s) && FundInv(s, user, currency) && SingleFlight(s, user, currency) && Enabled(s, m)
    ensures FundInv(Next(s, m), user, currency)
  {
    var t := Next(s, m);
    MoveIsAtomic(s, m);
    MoveKeepsReqs(s, m);
    match EventOf(s, m) {
      case None =>
        if Pays(s.procs[m.pid].req, user, currency) { MoverFunded(s, m); }
      case Some(Provisioned(id, u, c)) =>
        forall q | 0 <= q < |s.procs| && Pays(s.procs[q].req, user, currency) ensures Funded(t.db, s.procs[q]) {
          assert Funded(s.db, s.procs[q]);
          ProvisionKeepsFunded(s.db, s.procs[q], id, u, c);
        }
        ProvisionerFunded(s, m, id, u, c);
      case Some(Posted(posting)) => CommitKeepsFundInv(s, m, user, currency);
    }
  }

  /** The provisioning call goes on past its checks. */
  lemma ProvisionerFunded(s: State, m: Move, id: AccountId, user: string, currency: string)
    requires Inv(s) && Enabled(s, m) && EventOf(s, m) == Some(Provisioned(id, user, currency))
    ensures Funded(Next(s, m).db, s.procs[m.pid]) ==> Funded(Next(s, m).db, Next(s, m).procs[m.pid])
  {
    PostingKeepsReading(s, m);
  }

  /** Requests never change, and guards hold from the moment a call leaves Fresh. */
  lemma CheckingReq(s: State, p: Proc, c: Choice, clock: nat)
    requires ProcOk(s.db, s.nextId, p) && !PastChecks(p) && ReqOk(p)
    requires p.pc.Balance? && c.Row? ==> c.id in s.db.accounts && s.db.accounts[c.id].Wallet?
    ensures var q := QuietEffect(s, p, c, clock); q.req == p.req && ReqOk(q)
  {
  }

  lemma MoverReq(s: State, m: Move)
    requires Inv(s) && Enabled(s, m) && ReqOk(s.procs[m.pid])
    ensures Next(s, m).procs[m.pid].req == s.procs[m.pid].req
    ensures ReqOk(Next(s, m).procs[m.pid])
    ensures s.procs[m.pid].pc.Provisioning? ==>
      var q := Next(s, m).procs[m.pid];
      !q.pc.Fresh? && !q.pc.Balance?
  {
    var p := s.procs[m.pid];
    assert ProcOk(s.db, s.nextId, p);
    if PastChecks(p) {
      PostingKeepsReading(s, m);
    } else {
      CheckingReq(s, p, m.choice, m.clock);
    }
  }

  lemma KeyNowUsed(s: State, m: Move)
    requires Inv(s) && Enabled(s, m) && Commits(s.procs[m.pid], m.choice)
    ensures KeyUsed(Next(s, m).db.journal, s.procs[m.pid].Key())
  {
    MoveIsAtomic(s, m);
    assert Next(s, m).db.journal[|s.db.journal|] == PostingOf(s.procs[m.pid]);
  }

  lemma {:induction false} RunKeepsFundInv(s: State, moves: seq<Move>, user: string, currency: string)
    requires Inv(s) && FundInv(s, user, currency) && Guarded(s, moves, user, currency)
    ensures FundInv(Run(s, moves), user, currency)
  {
    if moves != [] {
      var earlier := moves[..|moves| - 1];
      var t := Run(s, earlier);
      RunKeepsInv(s, earlier);
      RunKeepsFundInv(s, earlier, user, currency);
      assert SingleFlight(t, user, currency) by {
        assert Guarded(s, earlier, user, currency);
      }
      if Enabled(t, moves[|moves| - 1]) { MoveKeepsFundInv(t, moves[|moves| - 1], user, currency); }
    }
  }

  lemma InitFundInv(s: State, user: string, currency: string)
    requires Init(s) && ServiceOnly(s)
    ensures Inv(s) && FundInv(s, user, currency)
  {
    InitInv(s);
    assert forall x | x in s.db.accounts :: s.db.accounts[x].System?;
    forall p | 0 <= p < |s.procs| ensures ReqOk(s.procs[p]) && Funded(s.db, s.procs[p]) {
      assert NotBegun(s.procs[p]);
    }
  }

  /** The sender's committed balance covers the send at this moment. */
  ghost predicate CoversNow(db: Db, r: Request)
    requires r.Send?
  {
    forall x | x in db.accounts && IsWallet(db.accounts[x], r.from, r.currency) ::
      db.accounts[x].cached >= r.amountMinor
  }

  /** Whatever its checks read earlier, a send's commit keeps every balance non-negative
      exactly when the balance covers it at the commit, or it pays the sender. */
  lemma SendCommitKeepsNonNegativeIff(s: State, m: Move)
    requires Inv(s) && Enabled(s, m) && Commits(s.procs[m.pid], m.choice)
    requires s.procs[m.pid].req.Send? && ReqOk(s.procs[m.pid]) && NonNegative(s.db.accounts)
    ensures NonNegative(Next(s, m).db.accounts)
      <==> s.procs[m.pid].req.from == s.procs[m.pid].req.to || CoversNow(s.db, s.procs[m.pid].req)
  {
    var p, t := s.procs[m.pid], Next(s, m);
    assert ProcOk(s.db, s.nextId, p);
    MoveIsAtomic(s, m);
    forall x | x in s.db.accounts && s.db.accounts[x].Wallet?
      ensures x in t.db.accounts && t.db.accounts[x].Wallet?
              && t.db.accounts[x].cached == s.db.accounts[x].cached + Change(p.req, s.db.accounts[x])
    {
      RowsEffect(s.db, p, x);
    }
  }

  /** A wallet whose user never has two sends in flight in its currency is never
      overdrawn, whatever other users do. */
  lemma NoOverdraft(s: State, moves: seq<Move>, x: AccountId)
    requires Init(s) && ServiceOnly(s)
    requires x in Run(s, moves).db.accounts && Run(s, moves).db.accounts[x].Wallet?
    requires var a := Run(s, moves).db.accounts[x]; Guarded(s, moves, a.user, a.currency)
    ensures Run(s, moves).db.accounts[x].cached >= 0
  {
    var a := Run(s, moves).db.accounts[x];
    InitFundInv(s, a.user, a.currency);
    RunKeepsFundInv(s, moves, a.user, a.currency);
  }

  /** With every user of a currency guarded, none of its wallets is overdrawn. */
  lemma CurrencyNonNegative(s: State, moves: seq<Move>, currency: string)
    requires Init(s) && ServiceOnly(s) && AllGuarded(s, moves, currency)
    ensures forall x | x in Run(s, moves).db.accounts && Run(s, moves).db.accounts[x].Wallet?
                       && Run(s, moves).db.accounts[x].currency == currency :: Run(s, moves).db.accounts[x].cached >= 0
  {
    var db := Run(s, moves).db;
    forall x | x in db.accounts && db.accounts[x].Wallet? && db.accounts[x].currency == currency
      ensures db.accounts[x].cached >= 0
    {
      assert Guarded(s, moves, db.accounts[x].user, currency);
      NoOverdraft(s, moves, x);
    }
  }
}
