/** Where service-level money comes from: wallet balances of a currency add up to
    its committed top-ups, which its external account owes. */
module Solvency {
  import opened Ledger
  import opened Protocol
  import opened Invariants
  import opened Preservation
  import opened Spending
  import opened Transfers

  /** Debits of one posting on system accounts in a currency. */
  function SystemDebits(accounts: map<AccountId, Account>, entries: seq<JournalEntry>, currency: string): int {
    if entries == [] then 0
    else
      var e := entries[|entries| - 1];
      SystemDebits(accounts, entries[..|entries| - 1], currency)
      + if e.account in accounts && accounts[e.account].System? && e.currency == currency && e.direction == Debit
        then e.amountMinor else 0
  }

  /** Committed top-ups of a currency. */
  function TopUps(accounts: map<AccountId, Account>, journal: seq<Posting>, currency: string): int {
    if journal == [] then 0
    else
      TopUps(accounts, journal[..|journal| - 1], currency)
      + SystemDebits(accounts, journal[|journal| - 1].entries, currency)
  }

  ghost predicate IsExternal(accounts: map<AccountId, Account>, x: AccountId, currency: string) {
    x in accounts && accounts[x].System? && accounts[x].code == "SYSTEM:EXTERNAL:" + currency
  }

  ghost predicate HasExternal(accounts: map<AccountId, Account>, currency: string) {
    exists x :: IsExternal(accounts, x, currency)
  }

  ghost predicate SystemsOk(accounts: map<AccountId, Account>) {
    && (forall x | x in accounts && accounts[x].System? :: InCatalog(accounts[x].code, accounts[x].currency))
    && (forall x, y | x in accounts && y in accounts && accounts[x].System? && accounts[y].System?
          && accounts[x].code == accounts[y].code :: x == y)
  }

  ghost predicate SolvencyInv(db: Db) {
    && SystemsOk(db.accounts)
    && (forall c :: WalletTotal(db.accounts, c) == TopUps(db.accounts, db.journal, c))
    && (forall x, c | IsExternal(db.accounts, x, c) :: JournalSum(db.journal, x) == -TopUps(db.accounts, db.journal, c))
    && (forall c | !HasExternal(db.accounts, c) :: TopUps(db.accounts, db.journal, c) == 0)
  }

  // ----- the catalog ----------------------------------------------------------------

  lemma CatalogCode(code: string, currency: string)
    requires InCatalog(code, currency)
    ensures |code| >= 3 && code[|code| - 3..] == currency
  {
    assert |currency| == 3;
  }

  /** Only USD and CRC have an external account. */
  lemma ExternalCurrencies(code: string, currency: string, c: string)
    requires InCatalog(code, currency) && code == "SYSTEM:EXTERNAL:" + c
    ensures c == currency
  {
    assert code[7] == 'E' && code[8] == 'X';
    assert code == "SYSTEM:EXTERNAL:" + currency;
    assert |"SYSTEM:EXTERNAL:"| == 16;
    assert code[16..] == c && code[16..] == currency;
  }

  lemma SeededSystems(accounts: map<AccountId, Account>)
    requires Seeded(accounts)
    ensures SystemsOk(accounts)
  {
    forall x, y | x in accounts && y in accounts && accounts[x].code == accounts[y].code ensures x == y {
      CatalogCode(accounts[x].code, accounts[x].currency);
      CatalogCode(accounts[y].code, accounts[y].currency);
      assert accounts[x] == accounts[y];
    }
  }

  // ----- frames ---------------------------------------------------------------------

  lemma {:induction false} SystemDebitsFrame(accounts: map<AccountId, Account>, accounts': map<AccountId, Account>,
                                             entries: seq<JournalEntry>, c: string)
    requires forall k | 0 <= k < |entries| :: entries[k].account in accounts
    requires forall x | x in accounts :: x in accounts' && (accounts'[x].System? <==> accounts[x].System?)
    ensures SystemDebits(accounts', entries, c) == SystemDebits(accounts, entries, c)
  {
    if entries != [] {
      var n := |entries| - 1;
      assert entries[n].account in accounts;
      SystemDebitsFrame(accounts, accounts', entries[..n], c);
    }
  }

  lemma {:induction false} TopUpsFrame(accounts: map<AccountId, Account>, accounts': map<AccountId, Account>,
                                       journal: seq<Posting>, c: string)
    requires forall i | 0 <= i < |journal| :: PostingOk(accounts, journal[i])
    requires forall x | x in accounts :: x in accounts' && (accounts'[x].System? <==> accounts[x].System?)
    ensures TopUps(accounts', journal, c) == TopUps(accounts, journal, c)
  {
    if journal != [] {
      var n := |journal| - 1;
      TopUpsFrame(accounts, accounts', journal[..n], c);
      assert PostingOk(accounts, journal[n]);
      forall k | 0 <= k < |journal[n].entries| ensures journal[n].entries[k].account in accounts {
        assert EntryOk(accounts, journal[n].entries[k]);
      }
      SystemDebitsFrame(accounts, accounts', journal[n].entries, c);
    }
  }

  // ----- provisioning -------------------------------------------------------------

  lemma ProvisionKeepsTotal(db: Db, id: AccountId, user: string, currency: string, c: string)
    requires CanApply(db, Provisioned(id, user, currency))
    ensures WalletTotal(Apply(db, Provisioned(id, user, currency)).accounts, c) == WalletTotal(db.accounts, c)
  {
    var accounts' := Apply(db, Provisioned(id, user, currency)).accounts;
    if c == currency {
      assert Balances(accounts', c) == Balances(db.accounts, c)[id := 0];
      SumInsert(Balances(db.accounts, c), id, 0);
    } else {
      assert Balances(accounts', c) == Balances(db.accounts, c);
    }
  }

  lemma ProvisionKeepsExternals(db: Db, id: AccountId, user: string, currency: string, c: string)
    requires CanApply(db, Provisioned(id, user, currency))
    ensures var db' := Apply(db, Provisioned(id, user, currency));
      forall x :: IsExternal(db'.accounts, x, c) <==> IsExternal(db.accounts, x, c)
  {
  }

  lemma ProvisionKeepsSolvency(db: Db, nextId: nat, id: AccountId, user: string, currency: string)
    requires JournalOk(db, nextId) && SolvencyInv(db) && CanApply(db, Provisioned(id, user, currency))
    ensures SolvencyInv(Apply(db, Provisioned(id, user, currency)))
  {
    var db' := Apply(db, Provisioned(id, user, currency));
    forall c
      ensures WalletTotal(db'.accounts, c) == TopUps(db'.accounts, db'.journal, c)
      ensures TopUps(db'.accounts, db'.journal, c) == TopUps(db.accounts, db.journal, c)
    {
      TopUpsFrame(db.accounts, db'.accounts, db.journal, c);
      ProvisionKeepsTotal(db, id, user, currency, c);
    }
    forall x, c | IsExternal(db'.accounts, x, c)
      ensures JournalSum(db'.journal, x) == -TopUps(db'.accounts, db'.journal, c)
    {
      ProvisionKeepsExternals(db, id, user, currency, c);
    }
    forall c | !HasExternal(db'.accounts, c) ensures TopUps(db'.accounts, db'.journal, c) == 0 {
      ProvisionKeepsExternals(db, id, user, currency, c);
      assert !HasExternal(db.accounts, c);
    }
  }

  // ----- postings ---------------------------------------------------------------------

  /** Top-ups a request adds in a currency. */
  function Minted(r: Request, currency: string): int {
    if r.TopUp? && r.currency == currency then r.amountMinor else 0
  }

  lemma RowsMinted(db: Db, p: Proc, c: string)
    requires !p.req.Direct? && |p.ids| == |p.Entries()| && Resolves(db, p.Entries(), p.ids)
    ensures SystemDebits(db.accounts, p.Rows(), c) == Minted(p.req, c)
  {
    var e := p.Rows();
    assert RowIs(db, p.ids[0], p.Entries()[0]) && RowIs(db, p.ids[1], p.Entries()[1]);
    assert e[..1][..0] == [];
    assert SystemDebits(db.accounts, e[..1], c) ==
      if db.accounts[e[0].account].System? && e[0].currency == c && e[0].direction == Debit
      then e[0].amountMinor else 0;
  }

  lemma RowsOnExternal(db: Db, p: Proc, x: AccountId, c: string)
    requires SystemsOk(db.accounts) && IsExternal(db.accounts, x, c)
    requires !p.req.Direct? && |p.ids| == |p.Entries()| && Resolves(db, p.Entries(), p.ids)
    ensures OnAccount(p.Rows(), x) == -Minted(p.req, c)
  {
    assert RowIs(db, p.ids[0], p.Entries()[0]) && RowIs(db, p.ids[1], p.Entries()[1]);
    TwoRows(p.Rows(), x);
    if p.req.TopUp? {
      var a, b := "SYSTEM:EXTERNAL:" + c, "SYSTEM:EXTERNAL:" + p.req.currency;
      if a == b {
        assert a[16..] == c && b[16..] == p.req.currency;
      }
    }
  }

  /** Every wallet balance of a currency moves by what the request says. */
  lemma BalancesMove(db: Db, p: Proc, c: string)
    requires WalletsUnique(db.accounts) && !p.req.Direct? && ReqOk(p) && !p.pc.Fresh? && !p.pc.Done?
    requires |p.ids| == |p.Entries()| && Resolves(db, p.Entries(), p.ids)
    ensures var before, after := Balances(db.accounts, c), Balances(PostAccounts(db.accounts, p.Rows()), c);
      after.Keys == before.Keys && forall x | x in before :: after[x] == before[x] + Change(p.req, db.accounts[x])
  {
    forall x | x in db.accounts && db.accounts[x].Wallet? ensures Delta(p.Rows(), x) == Change(p.req, db.accounts[x]) {
      RowsEffect(db, p, x);
    }
  }

  lemma TopUpChangesTotal(accounts: map<AccountId, Account>, r: Request, y: AccountId, before: map<AccountId, int>,
                          after: map<AccountId, int>)
    requires WalletsUnique(accounts) && r.TopUp?
    requires before == Balances(accounts, r.currency) && after.Keys == before.Keys
    requires forall x | x in before :: after[x] == before[x] + Change(r, accounts[x])
    requires y in accounts && IsWallet(accounts[y], r.user, r.currency)
    ensures SumValues(after) == SumValues(before) + r.amountMinor
  {
    assert after == before[y := before[y] + r.amountMinor];
    SumInsert(before, y, before[y] + r.amountMinor);
  }

  lemma SendKeepsTotal(accounts: map<AccountId, Account>, r: Request, x: AccountId, y: AccountId,
                       before: map<AccountId, int>, after: map<AccountId, int>)
    requires WalletsUnique(accounts) && r.Send?
    requires before == Balances(accounts, r.currency) && after.Keys == before.Keys
    requires forall z | z in before :: after[z] == before[z] + Change(r, accounts[z])
    requires x in accounts && IsWallet(accounts[x], r.from, r.currency)
    requires y in accounts && IsWallet(accounts[y], r.to, r.currency)
    ensures SumValues(after) == SumValues(before)
  {
    if x == y {
      assert after == before;
      return;
    }
    var mid := before[x := before[x] - r.amountMinor];
    assert after == mid[y := before[y] + r.amountMinor];
    SumInsert(before, x, before[x] - r.amountMinor);
    SumInsert(mid, y, before[y] + r.amountMinor);
  }

  lemma SameCurrencyTotal(db: Db, p: Proc)
    requires WalletsUnique(db.accounts) && !p.req.Direct? && ReqOk(p) && !p.pc.Fresh? && !p.pc.Done?
    requires |p.ids| == |p.Entries()| && Resolves(db, p.Entries(), p.ids)
    ensures WalletTotal(PostAccounts(db.accounts, p.Rows()), p.req.currency)
         == WalletTotal(db.accounts, p.req.currency) + Minted(p.req, p.req.currency)
  {
    var c := p.req.currency;
    BalancesMove(db, p, c);
    assert RowIs(db, p.ids[0], p.Entries()[0]) && RowIs(db, p.ids[1], p.Entries()[1]);
    var before, after := Balances(db.accounts, c), Balances(PostAccounts(db.accounts, p.Rows()), c);
    if p.req.TopUp? {
      TopUpChangesTotal(db.accounts, p.req, p.ids[1], before, after);
    } else {
      SendKeepsTotal(db.accounts, p.req, p.ids[0], p.ids[1], before, after);
    }
  }

  lemma OtherCurrencyTotal(db: Db, p: Proc, c: string)
    requires WalletsUnique(db.accounts) && !p.req.Direct? && ReqOk(p) && !p.pc.Fresh? && !p.pc.Done?
    requires |p.ids| == |p.Entries()| && Resolves(db, p.Entries(), p.ids) && p.req.currency != c
    ensures WalletTotal(PostAccounts(db.accounts, p.Rows()), c) == WalletTotal(db.accounts, c)
  {
    BalancesMove(db, p, c);
    var before, after := Balances(db.accounts, c), Balances(PostAccounts(db.accounts, p.Rows()), c);
    forall x | x in before ensures after[x] == before[x] {
      assert Change(p.req, db.accounts[x]) == 0;
    }
    assert after == before;
  }

  /** A top-up adds its amount to the wallet total; a send adds nothing. */
  lemma PostingChangesTotal(db: Db, p: Proc, c: string)
    requires WalletsUnique(db.accounts) && !p.req.Direct? && ReqOk(p) && !p.pc.Fresh? && !p.pc.Done?
    requires |p.ids| == |p.Entries()| && Resolves(db, p.Entries(), p.ids)
    ensures WalletTotal(PostAccounts(db.accounts, p.Rows()), c) == WalletTotal(db.accounts, c) + Minted(p.req, c)
  {
    if p.req.currency == c {
      SameCurrencyTotal(db, p);
    } else {
      OtherCurrencyTotal(db, p, c);
    }
  }

  lemma PostingAddsTopUps(db: Db, nextId: nat, p: Proc, c: string)
    requires JournalOk(db, nextId) && !p.req.Direct?
    requires |p.ids| == |p.Entries()| && Resolves(db, p.Entries(), p.ids)
    ensures var db' := Apply(db, Posted(PostingOf(p)));
      TopUps(db'.accounts, db'.journal, c) == TopUps(db.accounts, db.journal, c) + Minted(p.req, c)
  {
    var db' := Apply(db, Posted(PostingOf(p)));
    assert db'.journal[..|db.journal|] == db.journal;
    TopUpsFrame(db.accounts, db'.accounts, db.journal, c);
    forall k | 0 <= k < |p.Rows()| ensures p.Rows()[k].account in db.accounts {
      assert RowIs(db, p.ids[k], p.Entries()[k]);
    }
    SystemDebitsFrame(db.accounts, db'.accounts, p.Rows(), c);
    RowsMinted(db, p, c);
  }

  lemma PostKeepsSolvency(db: Db, nextId: nat, p: Proc)
    requires WalletsUnique(db.accounts) && JournalOk(db, nextId) && SolvencyInv(db)
    requires !p.req.Direct? && ReqOk(p) && !p.pc.Fresh? && !p.pc.Done?
    requires |p.ids| == |p.Entries()| && Resolves(db, p.Entries(), p.ids)
    ensures SolvencyInv(Apply(db, Posted(PostingOf(p))))
  {
    var db' := Apply(db, Posted(PostingOf(p)));
    assert db'.journal[..|db.journal|] == db.journal;
    forall c ensures TopUps(db'.accounts, db'.journal, c) == TopUps(db.accounts, db.journal, c) + Minted(p.req, c) {
      PostingAddsTopUps(db, nextId, p, c);
    }
    forall c ensures WalletTotal(db'.accounts, c) == TopUps(db'.accounts, db'.journal, c) {
      PostingChangesTotal(db, p, c);
    }
    forall x, c | IsExternal(db'.accounts, x, c)
      ensures JournalSum(db'.journal, x) == -TopUps(db'.accounts, db'.journal, c)
    {
      assert IsExternal(db.accounts, x, c);
      RowsOnExternal(db, p, x, c);
    }
    forall c | !HasExternal(db'.accounts, c) ensures TopUps(db'.accounts, db'.journal, c) == 0 {
      if x :| IsExternal(db.accounts, x, c) { assert IsExternal(db'.accounts, x, c); }
      if p.req.TopUp? && p.req.currency == c {
        assert RowIs(db, p.ids[0], p.Entries()[0]);
        assert IsExternal(db'.accounts, p.ids[0], c);
      }
    }
  }

  // ----- runs --------------------------------------------------------------------------

  lemma MoveKeepsSolvency(s: State, m: Move)
    requires Inv(s) && ReqsOk(s) && SolvencyInv(s.db) && Enabled(s, m)
    ensures SolvencyInv(Next(s, m).db) && ReqsOk(Next(s, m))
  {
    MoveIsAtomic(s, m);
    MoverReq(s, m);
    var p := s.procs[m.pid];
    assert ProcOk(s.db, s.nextId, p);
    match EventOf(s, m)
    case None =>
    case Some(Provisioned(id, u, c)) => ProvisionKeepsSolvency(s.db, s.nextId, id, u, c);
    case Some(Posted(_)) => PostKeepsSolvency(s.db, s.nextId, p);
  }

  lemma {:induction false} RunKeepsSolvency(s: State, moves: seq<Move>)
    requires Inv(s) && ReqsOk(s) && SolvencyInv(s.db)
    ensures SolvencyInv(Run(s, moves).db) && ReqsOk(Run(s, moves))
  {
    if moves != [] {
      var t := Run(s, moves[..|moves| - 1]);
      RunKeepsInv(s, moves[..|moves| - 1]);
      RunKeepsSolvency(s, moves[..|moves| - 1]);
      if Enabled(t, moves[|moves| - 1]) { MoveKeepsSolvency(t, moves[|moves| - 1]); }
    }
  }

  lemma InitSolvency(s: State)
    requires Init(s) && ServiceOnly(s)
    ensures SolvencyInv(s.db) && ReqsOk(s)
  {
    SeededSystems(s.db.accounts);
    assert forall x | x in s.db.accounts :: s.db.accounts[x].System?;
    forall c ensures WalletTotal(s.db.accounts, c) == 0 {
      assert Balances(s.db.accounts, c) == map[];
    }
    forall p | 0 <= p < |s.procs| ensures ReqOk(s.procs[p]) {
      assert NotBegun(s.procs[p]);
    }
  }

  /** In every service-level run, however it interleaves and fails, the wallets of a
      currency hold exactly its committed top-ups, and its external account's
      journal balance is the negative of that. */
  lemma WalletsHoldTopUps(s: State, moves: seq<Move>, currency: string)
    requires Init(s) && ServiceOnly(s)
    ensures var db := Run(s, moves).db;
      && WalletTotal(db.accounts, currency) == TopUps(db.accounts, db.journal, currency)
      && forall x | IsExternal(db.accounts, x, currency) ::
           JournalSum(db.journal, x) == -WalletTotal(db.accounts, currency)
  {
    InitInv(s);
    InitSolvency(s);
    RunKeepsSolvency(s, moves);
  }

  /** Currencies without an external account never hold money: their wallets add
      up to zero, and with sends guarded each of them is empty. */
  lemma NoExternalNoMoney(s: State, moves: seq<Move>, currency: string)
    requires Init(s) && ServiceOnly(s) && currency !in {"USD", "CRC"}
    ensures var db := Run(s, moves).db;
      && WalletTotal(db.accounts, currency) == 0
      && (AllGuarded(s, moves, currency) ==>
            forall x | x in db.accounts && db.accounts[x].Wallet? && db.accounts[x].currency == currency ::
              db.accounts[x].cached == 0)
  {
    InitInv(s);
    InitSolvency(s);
    RunKeepsSolvency(s, moves);
    var db := Run(s, moves).db;
    assert !HasExternal(db.accounts, currency) by {
      forall x ensures !IsExternal(db.accounts, x, currency) {
        if x in db.accounts && db.accounts[x].System? && db.accounts[x].code == "SYSTEM:EXTERNAL:" + currency {
          ExternalCurrencies(db.accounts[x].code, db.accounts[x].currency, currency);
          assert false;
        }
      }
    }
    if AllGuarded(s, moves, currency) {
      CurrencyNonNegative(s, moves, currency);
      forall x | x in db.accounts && db.accounts[x].Wallet? && db.accounts[x].currency == currency
        ensures db.accounts[x].cached == 0
      {
        MemberWithinSum(Balances(db.accounts, currency), x);
      }
    }
  }
}
