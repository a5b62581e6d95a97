/** Calls made one after another: how each goes through, and what they leave in the
    tables. */
module Serial {
  import opened Int64
  import opened Ledger
  import opened Protocol
  import opened Invariants
  import opened Preservation
  import opened Simulation
  import opened Engine
  import opened Transfers
  import opened Solvency
  import Service
  import Liveness
  import Calendar
  import Currency
  import Kyc

  // ----- a call that goes through --------------------------------------------------------------

  ghost predicate SystemEntriesExist(db: Db, p: Proc) {
    forall i | 0 <= i < |p.Entries()| && p.Entries()[i].account.IsSystem() :: exists x :: RowIs(db, x, p.Entries()[i])
  }

  /** The next entry of a call finds its account, or provisions it. */
  lemma ResolveOne(s: State, pid: nat, clock: nat) returns (t: State, ev: seq<Event>)
    requires pid < |s.procs| && s.clock <= clock && s.procs[pid].pc.Resolving?
    requires |s.procs[pid].ids| < |s.procs[pid].Entries()| && SystemEntriesExist(s.db, s.procs[pid])
    requires Resolves(s.db, s.procs[pid].Entries(), s.procs[pid].ids)
    ensures Ran(s, t, ev) && NoPostings(ev) && OnlyAdds(s.db, t.db)
    ensures |t.procs| == |s.procs| && t == With(s, pid, t.procs[pid], t.db, s.nextId, clock)
    ensures var p, q := s.procs[pid], t.procs[pid];
      && exists id :: q == p.AddId(id) && Resolves(t.db, q.Entries(), q.ids) && q.ids == p.ids + [id]
  {
    var p := s.procs[pid];
    var e := NextEntry(p);
    if x :| RowIs(s.db, x, e) {
      ev := [];
      EntryRun(s, pid, clock, Some(x), ev, s.db);
      t := With(s, pid, p.AddId(x), s.db, s.nextId, clock);
      ResolvesStep(s.db, p.Entries(), p.ids, x);
    } else {
      var x := Liveness.FreshRow(s.db.accounts.Keys);
      ev := [Provisioned(x, e.account.userId, e.currency)];
      assert !HasWallet(s.db.accounts, e.account.userId, e.currency) by {
        if y :| y in s.db.accounts && IsWallet(s.db.accounts[y], e.account.userId, e.currency) {
          assert RowIs(s.db, y, e);
        }
      }
      var db := Apply(s.db, ev[0]);
      assert ev[..0] == [] && ApplyAll(s.db, ev) == Some(db);
      EntryRun(s, pid, clock, Some(x), ev, db);
      t := With(s, pid, p.AddId(x), db, s.nextId, clock);
      forall i | 0 <= i < |p.ids| ensures RowIs(db, p.ids[i], p.Entries()[i]) {
        assert RowIs(s.db, p.ids[i], p.Entries()[i]);
      }
      ResolvesStep(db, p.Entries(), p.ids, x);
    }
  }

  lemma {:induction false} ResolveAll(s: State, pid: nat, clock: nat) returns (t: State, evs: seq<Event>)
    requires pid < |s.procs| && s.clock <= clock && s.procs[pid].pc.Resolving?
    requires |s.procs[pid].ids| < |s.procs[pid].Entries()| && SystemEntriesExist(s.db, s.procs[pid])
    requires Resolves(s.db, s.procs[pid].Entries(), s.procs[pid].ids)
    ensures Ran(s, t, evs) && NoPostings(evs) && OnlyAdds(s.db, t.db)
    ensures |t.procs| == |s.procs| && t == With(s, pid, t.procs[pid], t.db, s.nextId, clock)
    ensures var p, q := s.procs[pid], t.procs[pid];
      && q == p.(pc := Ready, ids := q.ids, attempt := 0)
      && |q.ids| == |q.Entries()| && Resolves(t.db, q.Entries(), q.ids)
    decreases |s.procs[pid].Entries()| - |s.procs[pid].ids|
  {
    var u, ev := ResolveOne(s, pid, clock);
    if |u.procs[pid].ids| == |u.procs[pid].Entries()| {
      t, evs := u, ev;
    } else {
      forall i | 0 <= i < |u.procs[pid].Entries()| && u.procs[pid].Entries()[i].account.IsSystem()
        ensures exists x :: RowIs(u.db, x, u.procs[pid].Entries()[i])
      {
        var x :| RowIs(s.db, x, s.procs[pid].Entries()[i]);
        assert RowIs(u.db, x, u.procs[pid].Entries()[i]);
      }
      var later;
      t, later := ResolveAll(u, pid, clock);
      RanThrough(s, u, t, ev, later);
      evs := ev + later;
      WithTwice(s, pid, u.procs[pid], u.db, s.nextId, clock, t.procs[pid], t.db, s.nextId, clock);
    }
  }

  /** An account after its cache took up the entries. */
  function After(a: Account, entries: seq<EntryInput>): Account {
    match a
    case Wallet(u, c, b) => Wallet(u, c, b + Wrap(InputOn(entries, u, c)))
    case System(_, _) => a
  }

  ghost predicate MovedBy(db: Db, db': Db, entries: seq<EntryInput>) {
    forall x | x in db.accounts :: x in db'.accounts && db'.accounts[x] == After(db.accounts[x], entries)
  }

  ghost predicate PostedNext(db: Db, db': Db, p: Proc, id: nat, at: nat) {
    exists ids ::
      && |ids| == |p.Entries()| && Resolves(db', p.Entries(), ids)
      && db'.journal == db.journal + [Posting(id, p.Key(), Resolved(p.Entries(), ids), at)]
  }

  /** Ended with a posting of its own. */
  predicate Succeeded(p: Proc) {
    p.pc.Done? && p.outcome.Success? && !p.outcome.replayed
  }

  /** A call that meets no fault and no other transaction posts, if the database takes
      its entries; every old wallet moves by what the entries say. */
  lemma Complete(s: State, pid: nat, clock: nat) returns (t: State, evs: seq<Event>)
    requires Inv(s) && IdleButFor(s, pid) && s.clock <= clock && s.procs[pid].pc.Resolving? && s.procs[pid].ids == []
    requires SystemEntriesExist(s.db, s.procs[pid])
    requires !KeyUsed(s.db.journal, s.procs[pid].Key()) && Postable(s.db.accounts, s.procs[pid].Entries())
    ensures Ran(s, t, evs) && Inv(t)
    ensures |t.procs| == |s.procs| && t == With(s, pid, t.procs[pid], t.db, s.nextId + 1, clock)
    ensures Succeeded(t.procs[pid]) && t.procs[pid].held == {} && t.procs[pid].req == s.procs[pid].req
    ensures PostedNext(s.db, t.db, s.procs[pid], s.nextId, clock)
    ensures !NoPostings(evs) && AtMostOnePosting(t.db, evs, InputOf(s.procs[pid].req), clock)
    ensures MovedBy(s.db, t.db, s.procs[pid].Entries())
  {
    var p := s.procs[pid];
    var u, provisions := ResolveAll(s, pid, clock);
    RanKeepsInv(s, u, provisions);
    var q := u.procs[pid];
    PostableIff(s.db, u.db, q.Entries(), q.ids);
    t := PostedRun(u, pid, clock, Some(Success(u.nextId, false)));
    var posting := Posting(u.nextId, q.Key(), q.Rows(), clock);
    evs := provisions + [Posted(posting)];
    RanThrough(s, u, t, provisions, [Posted(posting)]);
    RanKeepsInv(u, t, [Posted(posting)]);
    WithTwice(s, pid, q, u.db, s.nextId, clock, t.procs[pid], t.db, s.nextId + 1, clock);
    PostedAccounts(s.db, u.db, q.Entries(), q.ids, posting);
    assert evs[|evs| - 1].Posted?;
    assert evs[..|evs| - 1] == provisions && evs[|evs| - 1..] == [Posted(posting)];
  }

  lemma PostedAccounts(db: Db, db': Db, entries: seq<EntryInput>, ids: seq<AccountId>, posting: Posting)
    requires OnlyAdds(db, db') && WalletsUnique(db'.accounts) && |ids| == |entries| && Resolves(db', entries, ids)
    requires posting.entries == Resolved(entries, ids)
    ensures var d := Apply(db', Posted(posting));
      d.journal == db.journal + [posting] && Resolves(d, entries, ids) && MovedBy(db, d, entries)
  {
    var d := Apply(db', Posted(posting));
    forall i | 0 <= i < |ids| ensures RowIs(d, ids[i], entries[i]) {
      assert RowIs(db', ids[i], entries[i]);
    }
    forall x | x in db.accounts ensures x in d.accounts && d.accounts[x] == After(db.accounts[x], entries) {
      if db.accounts[x].Wallet? { InputOnIsOnAccount(db', entries, ids, x); }
    }
  }

  // ----- a freshly seeded database -----------------------------------------------------------------

  function CatalogCode(k: nat, currency: string): string {
    match k
    case 0 => "SYSTEM:FEES:" + currency
    case 1 => "SYSTEM:SUSPENSE:" + currency
    case 2 => "SYSTEM:EXTERNAL:" + currency
    case 3 => "SYSTEM:RESERVE:" + currency
    case 4 => "SYSTEM:ESCROW:" + currency
    case _ => "SYSTEM:SAVINGS:" + currency
  }

  lemma CatalogInitials(k: nat, currency: string)
    requires k < 6
    ensures |CatalogCode(k, currency)| > 8
    ensures CatalogCode(k, currency)[7..9] == ["FE", "SU", "EX", "RE", "ES", "SA"][k]
  {
  }

  lemma CatalogDistinct(j: nat, k: nat, currency: string)
    requires j < 6 && k < 6 && CatalogCode(j, currency) == CatalogCode(k, currency)
    ensures j == k
  {
    CatalogInitials(j, currency);
    CatalogInitials(k, currency);
    var names := ["FE", "SU", "EX", "RE", "ES", "SA"];
    assert names[j][0] == names[k][0] && names[j][1] == names[k][1];
  }

  lemma CatalogIndex(code: string, currency: string) returns (k: nat)
    requires InCatalog(code, currency)
    ensures k < 6 && code == CatalogCode(k, currency)
  {
    k :=
      if code == CatalogCode(0, currency) then 0
      else if code == CatalogCode(1, currency) then 1
      else if code == CatalogCode(2, currency) then 2
      else if code == CatalogCode(3, currency) then 3
      else if code == CatalogCode(4, currency) then 4
      else 5;
  }

  function SeededAccounts(): map<AccountId, Account> {
    map x: nat | x < 12 ::
      var currency := if x % 2 == 0 then "USD" else "CRC";
      System(CatalogCode(x / 2, currency), currency)
  }

  lemma SeededDistinct(x: AccountId, y: AccountId)
    requires x in SeededAccounts() && y in SeededAccounts() && SeededAccounts()[x] == SeededAccounts()[y]
    ensures x == y
  {
    assert "USD"[0] != "CRC"[0];
    CatalogDistinct(x / 2, y / 2, SeededAccounts()[x].currency);
  }

  lemma SeededComplete(code: string, currency: string) returns (x: AccountId)
    requires InCatalog(code, currency)
    ensures x in SeededAccounts() && SeededAccounts()[x] == System(code, currency)
  {
    var k := CatalogIndex(code, currency);
    x := 2 * k + if currency == "USD" then 0 else 1;
  }

  lemma SeededInCatalog(x: AccountId)
    requires x in SeededAccounts()
    ensures SeededAccounts()[x].System? && InCatalog(SeededAccounts()[x].code, SeededAccounts()[x].currency)
  {
  }

  lemma SeededExists()
    ensures Seeded(SeededAccounts())
  {
    var accounts := SeededAccounts();
    forall x | x in accounts ensures accounts[x].System? && InCatalog(accounts[x].code, accounts[x].currency) {
      SeededInCatalog(x);
    }
    forall x, y | x in accounts && y in accounts && accounts[x] == accounts[y] ensures x == y {
      SeededDistinct(x, y);
    }
    forall code, currency | InCatalog(code, currency)
      ensures exists x :: x in accounts && accounts[x] == System(code, currency)
    {
      var x := SeededComplete(code, currency);
    }
  }

  lemma ExternalSeeded(accounts: map<AccountId, Account>, currency: string) returns (x: AccountId)
    requires Seeded(accounts) && currency in {"USD", "CRC"}
    ensures x in accounts && accounts[x] == System("SYSTEM:EXTERNAL:" + currency, currency)
  {
    assert InCatalog("SYSTEM:EXTERNAL:" + currency, currency);
    x :| x in accounts && accounts[x] == System("SYSTEM:EXTERNAL:" + currency, currency);
  }

  // ----- what completed requests have left behind ----------------------------------------------

  function TotalChange(rs: seq<Request>, user: string, currency: string): int {
    if rs == [] then 0
    else TotalChange(rs[..|rs| - 1], user, currency) + Change(rs[|rs| - 1], Wallet(user, currency, 0))
  }

  function TotalSpent(rs: seq<Request>, user: string, currency: string): int {
    if rs == [] then 0
    else TotalSpent(rs[..|rs| - 1], user, currency) + Spent(rs[|rs| - 1], Wallet(user, currency, 0))
  }

  function TotalMinted(rs: seq<Request>, currency: string): int {
    if rs == [] then 0
    else TotalMinted(rs[..|rs| - 1], currency) + Minted(rs[|rs| - 1], currency)
  }

  lemma TotalsStep(rs: seq<Request>, r: Request, user: string, currency: string)
    ensures TotalChange(rs + [r], user, currency)
         == TotalChange(rs, user, currency) + Change(r, Wallet(user, currency, 0))
    ensures TotalSpent(rs + [r], user, currency) == TotalSpent(rs, user, currency) + Spent(r, Wallet(user, currency, 0))
    ensures TotalMinted(rs + [r], currency) == TotalMinted(rs, currency) + Minted(r, currency)
  {
    assert (rs + [r])[..|rs + [r]| - 1] == rs;
  }

  /** The tables hold what the requests amount to, none posted after the clock. */
  ghost predicate Booked(s: State, rs: seq<Request>) {
    && (forall u, c :: Service.BalanceIs(s.db.accounts, u, c, TotalChange(rs, u, c)))
    && (forall u, c, since: int | since <= s.clock ::
          OutgoingSince(s.db.accounts, s.db.journal, u, c, since) == TotalSpent(rs, u, c))
    && (forall c :: TopUps(s.db.accounts, s.db.journal, c) == TotalMinted(rs, c))
    && (forall i | 0 <= i < |s.db.journal| :: s.db.journal[i].at <= s.clock)
    && KeysFrom(s.db.journal, rs)
  }

  ghost predicate KeysFrom(journal: seq<Posting>, rs: seq<Request>) {
    forall i | 0 <= i < |journal| :: KeyAmong(journal[i].key, rs)
  }

  ghost predicate KeyAmong(key: string, rs: seq<Request>) {
    exists k :: 0 <= k < |rs| && InputOf(rs[k]).key == key
  }

  lemma SameBooked(s: State, t: State, rs: seq<Request>)
    requires Booked(s, rs) && t.db == s.db && t.clock == s.clock
    ensures Booked(t, rs)
  {
  }

  lemma NothingBooked(s: State)
    requires Seeded(s.db.accounts) && s.db.journal == []
    ensures Booked(s, [])
  {
  }

  lemma {:induction false} OutgoingFrame(accounts: map<AccountId, Account>, accounts': map<AccountId, Account>,
                                         journal: seq<Posting>, u: string, c: string, since: int)
    requires forall i | 0 <= i < |journal| :: PostingOk(accounts, journal[i])
    requires Grows(Db(accounts, journal), Db(accounts', journal))
    ensures OutgoingSince(accounts', journal, u, c, since) == OutgoingSince(accounts, journal, u, c, since)
  {
    if journal != [] {
      var n := |journal| - 1;
      assert PostingOk(accounts, journal[n]);
      DebitsFrame(accounts, accounts', journal[n].entries, u, c);
      OutgoingFrame(accounts, accounts', journal[..n], u, c, since);
    }
  }

  lemma {:induction false} DebitsFrame(accounts: map<AccountId, Account>, accounts': map<AccountId, Account>,
                                       entries: seq<JournalEntry>, u: string, c: string)
    requires forall k | 0 <= k < |entries| :: EntryOk(accounts, entries[k])
    requires Grows(Db(accounts, []), Db(accounts', []))
    ensures DebitsOf(accounts', entries, u, c) == DebitsOf(accounts, entries, u, c)
  {
    if entries != [] {
      var n := |entries| - 1;
      assert EntryOk(accounts, entries[n]);
      DebitsFrame(accounts, accounts', entries[..n], u, c);
    }
  }

  /** The debits the spending query finds in one request's rows. */
  lemma RequestDebits(db: Db, r: Request, ids: seq<AccountId>, u: string, c: string)
    requires !r.Direct? && |ids| == 2 && Resolves(db, InputOf(r).entries, ids)
    ensures DebitsOf(db.accounts, Resolved(InputOf(r).entries, ids), u, c) == Spent(r, Wallet(u, c, 0))
  {
    var e := InputOf(r).entries;
    assert RowIs(db, ids[0], e[0]) && RowIs(db, ids[1], e[1]);
    var rows := Resolved(e, ids);
    assert rows[..1][..0] == [];
    assert DebitsOf(db.accounts, rows[..1], u, c) == Spent(r, Wallet(u, c, 0));
  }

  /** Its top-up, if it is one. */
  lemma RequestMints(db: Db, r: Request, ids: seq<AccountId>, c: string)
    requires !r.Direct? && |ids| == 2 && Resolves(db, InputOf(r).entries, ids)
    ensures SystemDebits(db.accounts, Resolved(InputOf(r).entries, ids), c) == Minted(r, c)
  {
    RowsMinted(db, NewCall(r).(ids := ids), c);
  }

  lemma RequestBalance(db: Db, db': Db, r: Request, ids: seq<AccountId>, u: string, c: string, total: int)
    requires !r.Direct? && |ids| == 2 && Resolves(db', InputOf(r).entries, ids)
    requires WalletsUnique(db'.accounts) && Grows(db, db') && Service.Moved(db.accounts, db'.accounts, r)
    requires Service.BalanceIs(db.accounts, u, c, total)
    ensures Service.BalanceIs(db'.accounts, u, c, total + Change(r, Wallet(u, c, 0)))
  {
    var e := InputOf(r).entries;
    assert RowIs(db', ids[0], e[0]) && RowIs(db', ids[1], e[1]);
    forall x | x in db'.accounts && IsWallet(db'.accounts[x], u, c)
      ensures db'.accounts[x].cached == total + Change(r, Wallet(u, c, 0))
    {
      if HasWallet(db.accounts, u, c) {
        var y :| y in db.accounts && IsWallet(db.accounts[y], u, c);
        assert IsWallet(db'.accounts[y], u, c) && y == x;
      }
    }
    if !HasWallet(db'.accounts, u, c) && HasWallet(db.accounts, u, c) {
      WalletStays(db, db', u, c);
    }
  }

  lemma SpendingBooked(db: Db, db': Db, posting: Posting, rs: seq<Request>, r: Request, ids: seq<AccountId>,
                       u: string, c: string, since: int)
    requires !r.Direct? && |ids| == 2 && Resolves(db', InputOf(r).entries, ids) && Grows(db, db')
    requires db'.journal == db.journal + [posting] && posting.entries == Resolved(InputOf(r).entries, ids)
    requires forall i | 0 <= i < |db.journal| :: PostingOk(db.accounts, db.journal[i])
    requires OutgoingSince(db.accounts, db.journal, u, c, since) == TotalSpent(rs, u, c) && since <= posting.at
    ensures OutgoingSince(db'.accounts, db'.journal, u, c, since) == TotalSpent(rs + [r], u, c)
  {
    assert db'.journal[..|db.journal|] == db.journal;
    TotalsStep(rs, r, u, c);
    OutgoingFrame(db.accounts, db'.accounts, db.journal, u, c, since);
    RequestDebits(db', r, ids, u, c);
  }

  lemma MintingBooked(db: Db, db': Db, posting: Posting, rs: seq<Request>, r: Request, ids: seq<AccountId>, c: string)
    requires !r.Direct? && |ids| == 2 && Resolves(db', InputOf(r).entries, ids) && Grows(db, db')
    requires db'.journal == db.journal + [posting] && posting.entries == Resolved(InputOf(r).entries, ids)
    requires forall i | 0 <= i < |db.journal| :: PostingOk(db.accounts, db.journal[i])
    requires TopUps(db.accounts, db.journal, c) == TotalMinted(rs, c)
    ensures TopUps(db'.accounts, db'.journal, c) == TotalMinted(rs + [r], c)
  {
    assert db'.journal[..|db.journal|] == db.journal;
    TotalsStep(rs, r, "", c);
    TopUpsFrame(db.accounts, db'.accounts, db.journal, c);
    RequestMints(db', r, ids, c);
  }

  /** One request more. */
  lemma BookNext(s: State, t: State, rs: seq<Request>, p: Proc)
    requires Inv(s) && Inv(t) && Booked(s, rs) && !p.req.Direct? && s.clock == t.clock && Grows(s.db, t.db)
    requires Service.Moved(s.db.accounts, t.db.accounts, p.req) && PostedNext(s.db, t.db, p, s.nextId, s.clock)
    ensures Booked(t, rs + [p.req])
  {
    var r := p.req;
    var ids :| |ids| == |p.Entries()| && Resolves(t.db, p.Entries(), ids)
      && t.db.journal == s.db.journal + [Posting(s.nextId, p.Key(), Resolved(p.Entries(), ids), s.clock)];
    var posting := t.db.journal[|s.db.journal|];
    forall u, c ensures Service.BalanceIs(t.db.accounts, u, c, TotalChange(rs + [r], u, c)) {
      TotalsStep(rs, r, u, c);
      RequestBalance(s.db, t.db, r, ids, u, c, TotalChange(rs, u, c));
    }
    forall u, c, since: int | since <= t.clock
      ensures OutgoingSince(t.db.accounts, t.db.journal, u, c, since) == TotalSpent(rs + [r], u, c)
    {
      SpendingBooked(s.db, t.db, posting, rs, r, ids, u, c, since);
    }
    forall c ensures TopUps(t.db.accounts, t.db.journal, c) == TotalMinted(rs + [r], c) {
      MintingBooked(s.db, t.db, posting, rs, r, ids, c);
    }
    BookedKeys(s.db.journal, posting, rs, r);
  }

  lemma BookedKeys(journal: seq<Posting>, posting: Posting, rs: seq<Request>, r: Request)
    requires KeysFrom(journal, rs) && posting.key == InputOf(r).key
    ensures KeysFrom(journal + [posting], rs + [r])
  {
    forall i | 0 <= i < |journal + [posting]| ensures KeyAmong((journal + [posting])[i].key, rs + [r]) {
      if i < |journal| {
        assert KeyAmong(journal[i].key, rs);
        var k :| 0 <= k < |rs| && InputOf(rs[k]).key == journal[i].key;
        assert (rs + [r])[k] == rs[k];
      } else {
        assert (rs + [r])[|rs|] == r;
      }
    }
  }

  /** The next request's key is new and every balance it leaves fits. */
  ghost predicate Bookable(rs: seq<Request>, r: Request) {
    && !r.Direct? && PastGuards(r) && Currency.IsSupported(r.currency)
    && !KeyAmong(r.key, rs)
    && (forall u, c :: InRange(TotalChange(rs, u, c) + Change(r, Wallet(u, c, 0))))
  }

  lemma BookedPostable(s: State, rs: seq<Request>, r: Request)
    requires Booked(s, rs) && Bookable(rs, r)
    ensures Postable(s.db.accounts, InputOf(r).entries) && !KeyUsed(s.db.journal, InputOf(r).key)
  {
    Service.RequestAccepted(r);
    forall x | x in s.db.accounts && s.db.accounts[x].Wallet?
      ensures InRange(s.db.accounts[x].cached
                      + Wrap(InputOn(InputOf(r).entries, s.db.accounts[x].user, s.db.accounts[x].currency)))
    {
      var u, c := s.db.accounts[x].user, s.db.accounts[x].currency;
      Service.RequestOnWallet(r, s.db.accounts[x]);
      assert Service.BalanceIs(s.db.accounts, u, c, TotalChange(rs, u, c));
    }
  }

  /** A service call that reached its posting completes, and is booked. */
  lemma CompleteRequest(s: State, pid: nat, rs: seq<Request>) returns (t: State, evs: seq<Event>)
    requires Inv(s) && IdleButFor(s, pid) && s.procs[pid].pc.Resolving? && s.procs[pid].ids == []
    requires Booked(s, rs) && Bookable(rs, s.procs[pid].req) && SystemEntriesExist(s.db, s.procs[pid])
    ensures Ran(s, t, evs) && Inv(t) && |t.procs| == |s.procs| && Booked(t, rs + [s.procs[pid].req])
    ensures t == With(s, pid, t.procs[pid], t.db, s.nextId + 1, s.clock)
    ensures Succeeded(t.procs[pid]) && t.procs[pid].held == {} && t.procs[pid].req == s.procs[pid].req
    ensures Grows(s.db, t.db)
  {
    var r := s.procs[pid].req;
    BookedPostable(s, rs, r);
    t, evs := Complete(s, pid, s.clock);
    RanKeepsInv(s, t, evs);
    EventsGrow(s.db, evs);
    Service.PostingMoves(s.db, evs, t.db, r, s.clock);
    BookNext(s, t, rs, s.procs[pid]);
  }

  // ----- calls one after another -----------------------------------------------------------------

  function NewCalls(rs: seq<Request>): seq<Proc> {
    seq(|rs|, i requires 0 <= i < |rs| => NewCall(rs[i]))
  }

  /** The freshly migrated database and these calls, not begun. */
  function Migrated(rs: seq<Request>, levels: map<string, int>): State {
    State(Db(SeededAccounts(), []), NewCalls(rs), 0, 0, levels)
  }

  lemma MigratedInit(rs: seq<Request>, levels: map<string, int>)
    ensures Init(Migrated(rs, levels))
    ensures (forall i | 0 <= i < |rs| :: !rs[i].Direct?) ==> ServiceOnly(Migrated(rs, levels))
  {
    SeededExists();
    forall i | 0 <= i < |rs| ensures NotBegun(NewCalls(rs)[i]) {
    }
  }

  /** The checks of a send pass after these requests. */
  ghost predicate Payable(levels: map<string, int>, rs: seq<Request>, r: Request)
    requires r.Send?
  {
    && r.spelled != r.from && r.from in levels && TotalChange(rs, r.from, r.currency) >= r.amountMinor
    && var limits, spent := Kyc.LimitsFor(levels[r.from]), TotalSpent(rs, r.from, r.currency);
       && WithinCeiling(spent, r.amountMinor, limits.dailyMinor)
       && WithinCeiling(spent, r.amountMinor, limits.monthlyMinor)
  }

  /** The next request goes through. */
  ghost predicate Goes(levels: map<string, int>, rs: seq<Request>, r: Request) {
    Bookable(rs, r) && if r.Send? then Payable(levels, rs, r) else r.currency in {"USD", "CRC"}
  }

  lemma CheckSend(s: State, pid: nat, rs: seq<Request>) returns (t: State)
    requires Inv(s) && Booked(s, rs) && pid < |s.procs| && s.procs[pid] == NewCall(s.procs[pid].req)
    requires s.procs[pid].req.Send? && Goes(s.levels, rs, s.procs[pid].req)
    ensures Ran(s, t, []) && Inv(t) && Booked(t, rs)
    ensures t == With(s, pid, s.procs[pid].(pc := Resolving, now := s.clock), s.db, s.nextId, s.clock)
  {
    var r := s.procs[pid].req;
    Calendar.StartsMonotone(s.clock, s.clock);
    Service.RequestAccepted(r);
    assert Service.BalanceIs(s.db.accounts, r.from, r.currency, TotalChange(rs, r.from, r.currency));
    var x :| x in s.db.accounts && IsWallet(s.db.accounts[x], r.from, r.currency);
    t := ChecksRun(s, pid, x, s.clock);
    RanKeepsInv(s, t, []);
    SameBooked(s, t, rs);
  }

  lemma CatalogHas(s: State, db: Db, p: Proc)
    requires Seeded(s.db.accounts) && Grows(s.db, db) && !p.req.Direct?
    requires p.req.TopUp? ==> p.req.currency in {"USD", "CRC"}
    ensures SystemEntriesExist(db, p)
  {
    if p.req.TopUp? {
      var e := ExternalSeeded(s.db.accounts, p.req.currency);
      assert RowIs(db, e, p.Entries()[0]);
    }
  }

  lemma BeginTopUp(s: State, pid: nat, rs: seq<Request>) returns (t: State)
    requires Inv(s) && Booked(s, rs) && pid < |s.procs| && s.procs[pid] == NewCall(s.procs[pid].req)
    requires s.procs[pid].req.TopUp? && Bookable(rs, s.procs[pid].req)
    ensures Ran(s, t, []) && Inv(t) && Booked(t, rs)
    ensures t == With(s, pid, s.procs[pid].(pc := Resolving), s.db, s.nextId, s.clock)
  {
    Service.RequestAccepted(s.procs[pid].req);
    var m := Move(pid, Ok, s.clock);
    assert Enabled(s, m);
    t := Next(s, m);
    assert t == With(s, pid, s.procs[pid].(pc := Resolving), s.db, s.nextId, s.clock);
    RanMove(s, m);
    RanKeepsInv(s, t, []);
    SameBooked(s, t, rs);
  }

  lemma BeginCall(s: State, pid: nat, rs: seq<Request>) returns (t: State)
    requires Inv(s) && Booked(s, rs) && IdleButFor(s, pid) && s.procs[pid] == NewCall(s.procs[pid].req)
    requires Goes(s.levels, rs, s.procs[pid].req)
    ensures Ran(s, t, []) && Inv(t) && Booked(t, rs) && IdleButFor(t, pid)
    ensures |t.procs| == |s.procs| && t == With(s, pid, t.procs[pid], s.db, s.nextId, s.clock)
    ensures var p := t.procs[pid]; p.pc.Resolving? && p.ids == [] && p.req == s.procs[pid].req
  {
    if s.procs[pid].req.Send? {
      t := CheckSend(s, pid, rs);
    } else {
      t := BeginTopUp(s, pid, rs);
    }
  }

  /** One call from its start to its end, the others idle. */
  lemma WholeCall(start: State, s: State, pid: nat, rs: seq<Request>) returns (t: State, evs: seq<Event>)
    requires Seeded(start.db.accounts) && Grows(start.db, s.db)
    requires Inv(s) && IdleButFor(s, pid) && Booked(s, rs) && s.procs[pid] == NewCall(s.procs[pid].req)
    requires Goes(s.levels, rs, s.procs[pid].req)
    ensures Ran(s, t, evs) && Inv(t) && Booked(t, rs + [s.procs[pid].req]) && Grows(start.db, t.db)
    ensures |t.procs| == |s.procs| && t == With(s, pid, t.procs[pid], t.db, s.nextId + 1, s.clock)
    ensures Succeeded(t.procs[pid])
  {
    var u := BeginCall(s, pid, rs);
    CatalogHas(start, u.db, u.procs[pid]);
    t, evs := CompleteRequest(u, pid, rs);
    RanThrough(s, u, t, [], evs);
    assert [] + evs == evs;
    WithTwice(s, pid, u.procs[pid], s.db, s.nextId, s.clock, t.procs[pid], t.db, s.nextId + 1, s.clock);
    GrowsTwice(start.db, s.db, t.db);
  }

  /** Finished calls do not move, and no call becomes unbegun. */
  lemma MoveStages(s: State, m: Move, q: nat)
    requires Enabled(s, m) && q < |s.procs|
    ensures |Next(s, m).procs| == |s.procs|
    ensures s.procs[q].pc.Done? ==> Next(s, m).procs[q].pc.Done?
    ensures Next(s, m).procs[q].pc.Fresh? ==> s.procs[q].pc.Fresh?
  {
  }

  lemma {:induction false} Stages(s: State, moves: seq<Move>)
    ensures |Run(s, moves).procs| == |s.procs|
    ensures forall q | 0 <= q < |s.procs| && s.procs[q].pc.Done? :: Run(s, moves).procs[q].pc.Done?
  {
    if moves != [] {
      var t, m := Run(s, moves[..|moves| - 1]), moves[|moves| - 1];
      Stages(s, moves[..|moves| - 1]);
      if Enabled(t, m) {
        forall q | 0 <= q < |s.procs| && s.procs[q].pc.Done? ensures Next(t, m).procs[q].pc.Done? {
          MoveStages(t, m, q);
        }
      }
    }
  }

  /** Every other call has ended before or begins later. */
  ghost predicate AlonePast(s: State, t: State, pid: nat) {
    && |s.procs| == |t.procs|
    && forall q | 0 <= q < |s.procs| && q != pid :: s.procs[q].pc.Done? || t.procs[q].pc.Fresh?
  }

  lemma {:induction false} AloneIsGuarded(s: State, moves: seq<Move>, pid: nat, user: string, currency: string)
    requires AlonePast(s, Run(s, moves), pid)
    ensures Guarded(s, moves, user, currency)
  {
    Stages(s, moves);
    if moves != [] {
      var earlier, m := moves[..|moves| - 1], moves[|moves| - 1];
      var t := Run(s, earlier);
      Stages(s, earlier);
      forall q | 0 <= q < |s.procs| && q != pid ensures s.procs[q].pc.Done? || t.procs[q].pc.Fresh? {
        if Enabled(t, m) { MoveStages(t, m, q); }
      }
      AloneIsGuarded(s, earlier, pid, user, currency);
    }
  }

  /** A run with at most one send in flight per sender and currency. */
  ghost predicate GuardedRan(s: State, t: State, evs: seq<Event>) {
    exists moves :: Reaches(s, moves, t, evs) && FullyGuarded(s, moves)
  }

  ghost predicate FullyGuarded(s: State, moves: seq<Move>) {
    forall currency :: AllGuarded(s, moves, currency)
  }

  lemma {:induction false} GuardedThrough(s: State, a: seq<Move>, b: seq<Move>, user: string, currency: string)
    requires Guarded(s, a, user, currency) && Guarded(Run(s, a), b, user, currency)
    ensures Guarded(s, a + b, user, currency)
    decreases |b|
  {
    if b == [] {
      assert a + b == a;
    } else {
      GuardedThrough(s, a, b[..|b| - 1], user, currency);
      ReachesThrough(s, a, b);
      assert (a + b)[..|a + b| - 1] == a + b[..|b| - 1];
    }
  }

  lemma GuardedAfter(s: State, t: State, u: State, evs: seq<Event>, evs': seq<Event>, pid: nat)
    requires GuardedRan(s, t, evs) && Ran(t, u, evs') && AlonePast(t, u, pid)
    ensures GuardedRan(s, u, evs + evs')
  {
    var a :| Reaches(s, a, t, evs) && FullyGuarded(s, a);
    var b :| Reaches(t, b, u, evs');
    forall user, currency ensures Guarded(s, a + b, user, currency) {
      assert AllGuarded(s, a, currency);
      AloneIsGuarded(t, b, pid, user, currency);
      GuardedThrough(s, a, b, user, currency);
    }
    ReachesThrough(s, a, b);
    assert Reaches(s, a + b, u, evs + evs');
  }

  /** The first n calls have succeeded and are booked, the others have not begun. */
  ghost predicate Served(s: State, t: State, rs: seq<Request>, n: nat)
    requires n <= |rs|
  {
    && Inv(t) && Booked(t, rs[..n]) && Grows(s.db, t.db)
    && t.levels == s.levels && t.clock == s.clock && |t.procs| == |rs|
    && forall i | 0 <= i < |rs| :: if i < n then Succeeded(t.procs[i]) else t.procs[i] == NewCall(rs[i])
  }

  lemma ServeNext(s: State, t: State, rs: seq<Request>, n: nat) returns (u: State, evs: seq<Event>)
    requires Seeded(s.db.accounts) && n < |rs| && Served(s, t, rs, n) && Goes(s.levels, rs[..n], rs[n])
    ensures Ran(t, u, evs) && AlonePast(t, u, n) && Served(s, u, rs, n + 1)
  {
    forall q | 0 <= q < |t.procs| && q != n ensures t.procs[q].held == {} && !t.procs[q].pc.Writing? {
      assert ProcOk(t.db, t.nextId, t.procs[q]);
    }
    u, evs := WholeCall(s, t, n, rs[..n]);
    assert rs[..n] + [rs[n]] == rs[..n + 1];
  }

  /** Calls made one after another, each of which passes its checks, all succeed. */
  lemma {:induction false} InOrder(s: State, rs: seq<Request>, n: nat) returns (t: State, evs: seq<Event>)
    requires Init(s) && s.procs == NewCalls(rs) && n <= |rs|
    requires forall i | 0 <= i < n :: Goes(s.levels, rs[..i], rs[i])
    ensures GuardedRan(s, t, evs) && Served(s, t, rs, n)
  {
    if n == 0 {
      t, evs := s, [];
      assert Reaches(s, [], s, []) && FullyGuarded(s, []);
      InitInv(s);
      NothingBooked(s);
    } else {
      var u, e := InOrder(s, rs, n - 1);
      var more;
      t, more := ServeNext(s, u, rs, n - 1);
      GuardedAfter(s, u, t, e, more, n - 1);
      evs := e + more;
    }
  }

  /** All calls have succeeded and are booked. */
  ghost predicate AllServed(s: State, t: State, rs: seq<Request>) {
    && Inv(t) && Booked(t, rs) && t.levels == s.levels && t.clock == s.clock
    && |t.procs| == |rs| && forall i | 0 <= i < |rs| :: Succeeded(t.procs[i])
  }

  ghost predicate CanServe(s: State, rs: seq<Request>) {
    exists t, evs :: GuardedRan(s, t, evs) && AllServed(s, t, rs)
  }

  lemma AllInOrder(s: State, rs: seq<Request>)
    requires Init(s) && s.procs == NewCalls(rs) && forall i | 0 <= i < |rs| :: Goes(s.levels, rs[..i], rs[i])
    ensures CanServe(s, rs)
  {
    var t, evs := InOrder(s, rs, |rs|);
    assert rs[..|rs|] == rs;
    assert AllServed(s, t, rs);
  }
}
