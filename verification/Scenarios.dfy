/** Runs that show where the results end: a balanced posting that makes the drift view
    non-empty, two sends in flight at once that overdraw a wallet, and top-ups large enough
    for a ceiling check to overflow. */
module Scenarios {
  import opened Int64
  import opened Ledger
  import opened Protocol
  import opened Invariants
  import opened Preservation
  import opened Refinement
  import opened Simulation
  import opened Engine
  import opened Transfers
  import opened Solvency
  import opened Spending
  import Ceilings
  import opened Serial
  import Service
  import Calendar
  import Currency
  import Kyc

  // ----- a balanced posting that drifts --------------------------------------------------------------

  /** Credits to a user's USD wallet from outside. */
  function Credits(user: string, amounts: seq<int64>): seq<EntryInput> {
    if amounts == [] then []
    else
      var a := amounts[|amounts| - 1];
      Credits(user, amounts[..|amounts| - 1])
      + [CreditDebit(a)] + [CreditCredit(user, a)]
  }

  function Total(amounts: seq<int64>): int {
    if amounts == [] then 0 else Total(amounts[..|amounts| - 1]) + amounts[|amounts| - 1]
  }

  function CreditDebit(amount: int64): EntryInput {
    EntryInput(AccountRef("SYSTEM:EXTERNAL:USD", ""), Debit, amount, "USD")
  }

  function CreditCredit(user: string, amount: int64): EntryInput {
    EntryInput(AccountRef("", user), Credit, amount, "USD")
  }

  lemma OneCredit(e: seq<EntryInput>, user: string, amount: int64, u: string, c: string)
    ensures var f := e + [CreditDebit(amount)] + [CreditCredit(user, amount)];
      && InputNet(f, c) == InputNet(e, c)
      && InputOn(f, u, c) == InputOn(e, u, c) + if u == user && c == "USD" then amount else 0
  {
    var d := e + [CreditDebit(amount)];
    var f := d + [CreditCredit(user, amount)];
    assert f[..|f| - 1] == d && d[..|d| - 1] == e;
  }

  lemma {:induction false} CreditsSum(user: string, amounts: seq<int64>, u: string, c: string)
    ensures InputNet(Credits(user, amounts), c) == 0
    ensures InputOn(Credits(user, amounts), u, c) == if u == user && c == "USD" then Total(amounts) else 0
  {
    if amounts != [] {
      var n := |amounts| - 1;
      CreditsSum(user, amounts[..n], u, c);
      OneCredit(Credits(user, amounts[..n]), user, amounts[n], u, c);
    }
  }

  ghost predicate CreditShape(user: string, e: seq<EntryInput>) {
    forall i | 0 <= i < |e| ::
      && e[i].account == (if i % 2 == 0 then AccountRef("SYSTEM:EXTERNAL:USD", "") else AccountRef("", user))
      && e[i].currency == "USD" && WellFormedEntry(e[i])
  }

  lemma {:induction false} CreditsShape(user: string, amounts: seq<int64>)
    requires forall i | 0 <= i < |amounts| :: amounts[i] > 0
    ensures |Credits(user, amounts)| == 2 * |amounts| && CreditShape(user, Credits(user, amounts))
  {
    if amounts != [] { CreditsShape(user, amounts[..|amounts| - 1]); }
  }

  /** Three credits that add up to 2^64. */
  function Drifting(user: string, key: string): PostingInput {
    PostingInput(key, Credits(user, [MAX, MAX, 2]))
  }

  lemma TotalOfThree(a: int64, b: int64, c: int64)
    ensures Total([a, b, c]) == a + b + c
  {
    var one: seq<int64>, two: seq<int64>, three: seq<int64> := [a], [a, b], [a, b, c];
    assert one[..0] == [] && Total(one) == a;
    assert two[..1] == one && Total(two) == a + b;
    assert three[..2] == two;
  }

  lemma DriftingFacts(user: string, key: string)
    ensures var e := Drifting(user, key).entries;
      && Accepts(Drifting(user, key)) && |e| == 6 && CreditShape(user, e)
      && (forall c :: InputNet(e, c) == 0)
      && (forall u, c :: InputOn(e, u, c) == if u == user && c == "USD" then TWO64 else 0)
  {
    var amounts: seq<int64> := [MAX, MAX, 2];
    TotalOfThree(MAX, MAX, 2);
    CreditsShape(user, amounts);
    var e := Credits(user, amounts);
    forall c ensures InputNet(e, c) == 0 {
      CreditsSum(user, amounts, user, c);
    }
    forall u, c ensures InputOn(e, u, c) == if u == user && c == "USD" then TWO64 else 0 {
      CreditsSum(user, amounts, u, c);
    }
  }

  lemma DriftingPostable(accounts: map<AccountId, Account>, user: string, key: string)
    requires forall x | x in accounts && accounts[x].Wallet? :: InRange(accounts[x].cached)
    ensures Postable(accounts, Drifting(user, key).entries)
  {
    DriftingFacts(user, key);
  }

  /** The posting the engine makes of it on two accounts. */
  function DriftingRows(user: string, key: string, wallet: AccountId, external: AccountId): (ids: seq<AccountId>)
    ensures |ids| == 6
  {
    [external, wallet, external, wallet, external, wallet]
  }

  lemma DriftedWallet(db: Db, posting: Posting, user: string, key: string, ids: seq<AccountId>, x: AccountId)
    requires WalletsUnique(db.accounts) && CacheOk(db) && |ids| == 6
    requires Resolves(db, Drifting(user, key).entries, ids)
    requires |Drifting(user, key).entries| == 6 && posting.entries == Resolved(Drifting(user, key).entries, ids)
    requires x in db.accounts && IsWallet(db.accounts[x], user, "USD")
    ensures OnAccount(posting.entries, x) == TWO64 && Delta(posting.entries, x) == 0
  {
    DriftingFacts(user, key);
    InputOnIsOnAccount(db, Drifting(user, key).entries, ids, x);
  }

  /** From any drift-free ledger with a USD wallet: the posting is accepted, balances
      exactly, can be applied, and leaves the wallet's cache 2^64 behind its journal. */
  lemma BalancedPostingCanDrift(db: Db, user: string, key: string, wallet: AccountId, external: AccountId, id: nat,
                                at: int)
    requires WalletsUnique(db.accounts) && CacheOk(db) && DriftRows(db) == {} && !KeyUsed(db.journal, key)
    requires wallet in db.accounts && IsWallet(db.accounts[wallet], user, "USD")
    requires external in db.accounts && db.accounts[external] == System("SYSTEM:EXTERNAL:USD", "USD")
    ensures var input, ids := Drifting(user, key), DriftingRows(user, key, wallet, external);
      && Accepts(input) && |input.entries| == |ids| && Resolves(db, input.entries, ids)
      && var posted := Posted(Posting(id, key, Resolved(input.entries, ids), at));
         CanApply(db, posted) && wallet in DriftRows(Apply(db, posted))
  {
    var input, ids := Drifting(user, key), DriftingRows(user, key, wallet, external);
    DriftingFacts(user, key);
    forall i | 0 <= i < 6 ensures RowIs(db, ids[i], input.entries[i]) {
    }
    DriftingPostable(db.accounts, user, key);
    PostableIff(db, db, input.entries, ids);
    var posting := Posting(id, key, Resolved(input.entries, ids), at);
    DriftedWallet(db, posting, user, key, ids, wallet);
    assert wallet !in DriftRows(db);
    CacheStaysExactIff(db.journal, posting, wallet);
    assert Apply(db, Posted(posting)).journal[..|db.journal|] == db.journal;
  }

  function DriftCall(user: string, key: string): Caller {
    Caller(Direct(Drifting(user, key)), 0, map[], 0)
  }

  function DriftStart(user: string, key: string): State {
    Alone(DriftCall(user, key), NewCall(Direct(Drifting(user, key))), Db(SeededAccounts(), []), 0)
  }

  lemma DriftStartInit(user: string, key: string)
    ensures Init(DriftStart(user, key))
  {
    SeededExists();
    assert NotBegun(DriftStart(user, key).procs[0]);
  }

  lemma DriftSystems(user: string, key: string, p: Proc, db: Db)
    requires p.req == Direct(Drifting(user, key)) && Seeded(db.accounts)
    ensures SystemEntriesExist(db, p)
  {
    DriftingFacts(user, key);
    var x := ExternalSeeded(db.accounts, "USD");
    forall i | 0 <= i < |p.Entries()| && p.Entries()[i].account.IsSystem() ensures RowIs(db, x, p.Entries()[i]) {
    }
  }

  lemma DriftBegins(user: string, key: string) returns (t: State)
    ensures Ran(DriftStart(user, key), t, []) && Inv(t) && IdleButFor(t, 0)
    ensures t == Alone(DriftCall(user, key), Calling(DriftCall(user, key), []), Db(SeededAccounts(), []), 0)
    ensures t.procs[0].pc.Resolving?
  {
    DriftStartInit(user, key);
    InitInv(DriftStart(user, key));
    DriftingFacts(user, key);
    DirectBegins(DriftCall(user, key), Db(SeededAccounts(), []), 0);
    t := Alone(DriftCall(user, key), Calling(DriftCall(user, key), []), Db(SeededAccounts(), []), 0);
    RanKeepsInv(DriftStart(user, key), t, []);
  }

  lemma DriftLeft(user: string, key: string, db: Db, db': Db, p: Proc, id: nat, at: nat)
    requires WalletsUnique(db'.accounts) && CacheOk(db') && db.journal == []
    requires p.req == Direct(Drifting(user, key)) && PostedNext(db, db', p, id, at)
    ensures DriftRows(db') != {}
  {
    var input := Drifting(user, key);
    DriftingFacts(user, key);
    var ids :| |ids| == |input.entries| && Resolves(db', input.entries, ids)
      && db'.journal == db.journal + [Posting(id, key, Resolved(input.entries, ids), at)];
    assert RowIs(db', ids[1], input.entries[1]);
    var posting := Posting(id, key, Resolved(input.entries, ids), at);
    DriftedWallet(db', posting, user, key, ids, ids[1]);
    assert db'.journal == [posting] && [posting][..0] == [];
    assert JournalSum(db'.journal, ids[1]) == TWO64;
    assert ids[1] in DriftRows(db');
  }

  /** And a run of one such call, from the freshly migrated database, gets there. */
  lemma DriftReachable(user: string, key: string) returns (s: State, t: State, evs: seq<Event>)
    ensures Init(s) && Ran(s, t, evs) && DriftRows(t.db) != {}
  {
    s := DriftStart(user, key);
    DriftStartInit(user, key);
    var u := DriftBegins(user, key);
    SeededExists();
    DriftSystems(user, key, u.procs[0], u.db);
    DriftingPostable(u.db.accounts, user, key);
    t, evs := Complete(u, 0, 0);
    RanThrough(s, u, t, [], evs);
    assert [] + evs == evs;
    DriftLeft(user, key, u.db, t.db, u.procs[0], 0, 0);
  }

  // ----- two sends at once --------------------------------------------------------------------------

  /** A user is topped up with an amount and then sends that amount twice. */
  function TopUpAndTwoSends(u: string, v: string, w: string, a: int64, c: string, keys: seq<string>): seq<Request>
    requires |keys| == 3
  {
    [TopUp(u, a, c, keys[0]), Send(u, v, v, a, c, keys[1]), Send(u, w, w, a, c, keys[2])]
  }

  ghost predicate TwoSends(s: State, u: string, v: string, w: string, a: int64, c: string, keys: seq<string>) {
    && |keys| == 3 && keys[0] != keys[1] && keys[0] != keys[2] && keys[1] != keys[2]
    && s.procs == NewCalls(TopUpAndTwoSends(u, v, w, a, c, keys))
    && u != v && u != w && c in {"USD", "CRC"}
    && u in s.levels && 0 < a <= Kyc.LimitsFor(s.levels[u]).dailyMinor
  }

  lemma CatalogSupported(c: string)
    requires c in {"USD", "CRC"}
    ensures Currency.IsSupported(c)
  {
    assert Currency.ToUpper("USD") == "USD" && Currency.ToUpper("CRC") == "CRC";
  }

  lemma TwoSendsTotals(u: string, v: string, w: string, a: int64, c: string, keys: seq<string>, user: string,
                       cur: string)
    requires |keys| == 3
    ensures var rs, acc := TopUpAndTwoSends(u, v, w, a, c, keys), Wallet(user, cur, 0);
      && TotalChange([rs[0]], user, cur) == Change(rs[0], acc) && TotalSpent([rs[0]], user, cur) == 0
      && TotalChange([rs[0]] + [rs[1]], user, cur) == Change(rs[0], acc) + Change(rs[1], acc)
      && TotalChange([rs[0]] + [rs[1]] + [rs[2]], user, cur)
         == Change(rs[0], acc) + Change(rs[1], acc) + Change(rs[2], acc)
  {
    var rs := TopUpAndTwoSends(u, v, w, a, c, keys);
    assert [] + [rs[0]] == [rs[0]];
    TotalsStep([], rs[0], user, cur);
    TotalsStep([rs[0]], rs[1], user, cur);
    TotalsStep([rs[0]] + [rs[1]], rs[2], user, cur);
  }

  /** The top-up goes through, then either send, then the other one past its checks. */
  lemma EachSendGoes(levels: map<string, int>, u: string, v: string, w: string, a: int64, c: string, keys: seq<string>)
    requires |keys| == 3 && keys[0] != keys[1] && keys[0] != keys[2] && keys[1] != keys[2]
    requires u != v && u != w && c in {"USD", "CRC"}
    requires u in levels && 0 < a <= Kyc.LimitsFor(levels[u]).dailyMinor
    ensures var rs := TopUpAndTwoSends(u, v, w, a, c, keys);
      && Goes(levels, [], rs[0]) && Goes(levels, [rs[0]], rs[1]) && Goes(levels, [rs[0]], rs[2])
      && Bookable([rs[0]] + [rs[1]], rs[2])
      && TotalChange([rs[0]] + [rs[1]] + [rs[2]], u, c) == -a
  {
    var rs := TopUpAndTwoSends(u, v, w, a, c, keys);
    CatalogSupported(c);
    forall user, cur
      ensures TotalChange([rs[0]], user, cur) == Change(rs[0], Wallet(user, cur, 0))
      ensures TotalChange([rs[0]] + [rs[1]], user, cur)
           == Change(rs[0], Wallet(user, cur, 0)) + Change(rs[1], Wallet(user, cur, 0))
    {
      TwoSendsTotals(u, v, w, a, c, keys, user, cur);
    }
    TwoSendsTotals(u, v, w, a, c, keys, u, c);
  }

  lemma PostBoth(s: State, rs: seq<Request>) returns (t: State, evs: seq<Event>)
    requires Inv(s) && |s.procs| == |rs| == 3 && Booked(s, [rs[0]]) && s.procs[0].pc.Done?
    requires forall i | i in {1, 2} ::
      s.procs[i].pc.Resolving? && s.procs[i].ids == [] && s.procs[i].req == rs[i] && rs[i].Send?
    requires Bookable([rs[0]], rs[1]) && Bookable([rs[0]] + [rs[1]], rs[2])
    ensures Ran(s, t, evs) && Booked(t, [rs[0]] + [rs[1]] + [rs[2]])
  {
    var u, e1 := CompleteRequest(s, 1, [rs[0]]);
    var e2;
    t, e2 := CompleteRequest(u, 2, [rs[0]] + [rs[1]]);
    RanThrough(s, u, t, e1, e2);
    evs := e1 + e2;
  }

  lemma GuardedIsRan(s: State, t: State, evs: seq<Event>)
    requires GuardedRan(s, t, evs)
    ensures Ran(s, t, evs)
  {
  }

  /** Without the guard of one send at a time, a wallet is overdrawn: both sends read the
      balance before either posts. */
  lemma TwoSendsOverdraw(s: State, u: string, v: string, w: string, a: int64, c: string, keys: seq<string>)
    returns (t: State, evs: seq<Event>)
    requires Init(s) && TwoSends(s, u, v, w, a, c, keys)
    ensures Ran(s, t, evs) && !NonNegative(t.db.accounts)
  {
    var rs := TopUpAndTwoSends(u, v, w, a, c, keys);
    EachSendGoes(s.levels, u, v, w, a, c, keys);
    assert rs[..0] == [] && rs[..1] == [rs[0]];
    var topped, e0 := InOrder(s, rs, 1);
    var one := CheckSend(topped, 1, [rs[0]]);
    var both := CheckSend(one, 2, [rs[0]]);
    RanThrough(topped, one, both, [], []);
    var e1;
    t, e1 := PostBoth(both, rs);
    RanThrough(topped, both, t, [], e1);
    assert [] + e1 == e1;
    GuardedIsRan(s, topped, e0);
    RanThrough(s, topped, t, e0, e1);
    evs := e0 + e1;
    Overdrawn(t, [rs[0]] + [rs[1]] + [rs[2]], u, c);
  }

  lemma Overdrawn(t: State, rs: seq<Request>, u: string, c: string)
    requires Booked(t, rs) && TotalChange(rs, u, c) < 0
    ensures !NonNegative(t.db.accounts)
  {
    assert Service.BalanceIs(t.db.accounts, u, c, TotalChange(rs, u, c));
    var x :| x in t.db.accounts && IsWallet(t.db.accounts[x], u, c);
    assert t.db.accounts[x].cached < 0;
  }

  /** Such a system exists. */
  lemma OverdraftReachable() returns (s: State, t: State, evs: seq<Event>)
    ensures Init(s) && ServiceOnly(s) && Ran(s, t, evs) && !NonNegative(t.db.accounts)
  {
    var keys := ["a", "b", "c"];
    s := Migrated(TopUpAndTwoSends("u", "v", "w", 100, "USD", keys), map["u" := 0]);
    MigratedInit(TopUpAndTwoSends("u", "v", "w", 100, "USD", keys), map["u" := 0]);
    assert TwoSends(s, "u", "v", "w", 100, "USD", keys);
    t, evs := TwoSendsOverdraw(s, "u", "v", "w", 100, "USD", keys);
  }

  // ----- a ceiling check that overflows -----------------------------------------------------------

  /** u spends a day's limit and gets it back, then sends everything. */
  function SpendTwice(u: string, v: string, w: string, daily: int, c: string, keys: seq<string>): seq<Request>
    requires |keys| == 4 && 0 < daily <= MAX
  {
    [TopUp(u, MAX - daily + 1, c, keys[0]),
     Send(u, v, v, daily, c, keys[1]),
     Send(v, u, u, daily, c, keys[2]),
     Send(u, w, w, MAX - daily + 1, c, keys[3])]
  }

  /** Two users of one level, a third party and four keys. */
  ghost predicate Spenders(levels: map<string, int>, level: int, u: string, v: string, w: string, c: string,
                           keys: seq<string>)
  {
    && u != v && u != w && c in {"USD", "CRC"}
    && u in levels && v in levels && levels[u] == levels[v] == level
    && |keys| == 4 && forall i, j | 0 <= i < j < 4 :: keys[i] != keys[j]
  }

  lemma SpendTwiceTotals(u: string, v: string, w: string, daily: int, c: string, keys: seq<string>, user: string,
                         cur: string)
    requires |keys| == 4 && 0 < daily <= MAX
    ensures var rs, a := SpendTwice(u, v, w, daily, c, keys), Wallet(user, cur, 0);
      && TotalChange(rs[..1], user, cur) == Change(rs[0], a)
      && TotalChange(rs[..2], user, cur) == Change(rs[0], a) + Change(rs[1], a)
      && TotalChange(rs[..3], user, cur) == Change(rs[0], a) + Change(rs[1], a) + Change(rs[2], a)
      && TotalSpent(rs[..1], user, cur) == 0
      && TotalSpent(rs[..2], user, cur) == Spent(rs[1], a)
      && TotalSpent(rs[..3], user, cur) == Spent(rs[1], a) + Spent(rs[2], a)
      && TotalSpent(rs, user, cur) == Spent(rs[1], a) + Spent(rs[2], a) + Spent(rs[3], a)
      && TotalMinted(rs, cur) == Minted(rs[0], cur)
  {
    var rs := SpendTwice(u, v, w, daily, c, keys);
    TotalsStep([], rs[0], user, cur);
    TotalsStep(rs[..1], rs[1], user, cur);
    TotalsStep(rs[..2], rs[2], user, cur);
    TotalsStep(rs[..3], rs[3], user, cur);
    assert [] + [rs[0]] == rs[..1] && rs[..1] + [rs[1]] == rs[..2];
    assert rs[..2] + [rs[2]] == rs[..3] && rs[..3] + [rs[3]] == rs;
  }

  lemma SpendTwiceKeys(u: string, v: string, w: string, daily: int, c: string, keys: seq<string>, i: nat)
    requires |keys| == 4 && 0 < daily <= MAX && i < 4 && forall i, j | 0 <= i < j < 4 :: keys[i] != keys[j]
    ensures var rs := SpendTwice(u, v, w, daily, c, keys); !KeyAmong(InputOf(rs[i]).key, rs[..i])
  {
    var rs := SpendTwice(u, v, w, daily, c, keys);
    assert forall k | 0 <= k < 4 :: InputOf(rs[k]).key == keys[k];
  }

  lemma SpendTwiceFits(u: string, v: string, w: string, daily: int, c: string, keys: seq<string>,
                       i: nat, user: string, cur: string)
    requires |keys| == 4 && 0 < daily <= MAX && i < 4 && u != v && u != w
    ensures var rs := SpendTwice(u, v, w, daily, c, keys);
      InRange(TotalChange(rs[..i], user, cur) + Change(rs[i], Wallet(user, cur, 0)))
  {
    SpendTwiceTotals(u, v, w, daily, c, keys, user, cur);
  }

  lemma SpendTwiceBookable(levels: map<string, int>, level: int, u: string, v: string, w: string, c: string,
                           keys: seq<string>, i: nat)
    requires Spenders(levels, level, u, v, w, c, keys) && i < 4
    ensures var rs := SpendTwice(u, v, w, Kyc.LimitsFor(level).dailyMinor, c, keys); Bookable(rs[..i], rs[i])
  {
    var daily := Kyc.LimitsFor(level).dailyMinor;
    var rs := SpendTwice(u, v, w, daily, c, keys);
    CatalogSupported(c);
    SpendTwiceKeys(u, v, w, daily, c, keys, i);
    forall user, cur ensures InRange(TotalChange(rs[..i], user, cur) + Change(rs[i], Wallet(user, cur, 0))) {
      SpendTwiceFits(u, v, w, daily, c, keys, i, user, cur);
    }
  }

  /** All of it is spent and counted on one day. */
  lemma SpendTwiceSum(levels: map<string, int>, level: int, u: string, v: string, w: string, c: string,
                      keys: seq<string>)
    requires Spenders(levels, level, u, v, w, c, keys)
    ensures var daily := Kyc.LimitsFor(level).dailyMinor;
      var rs := SpendTwice(u, v, w, daily, c, keys);
      TotalSpent(rs, u, c) == MAX + 1 && TotalMinted(rs, c) == MAX - daily + 1
  {
    SpendTwiceTotals(u, v, w, Kyc.LimitsFor(level).dailyMinor, c, keys, u, c);
  }

  lemma SpendTwiceAllGo(levels: map<string, int>, level: int, u: string, v: string, w: string, c: string,
                        keys: seq<string>)
    requires Spenders(levels, level, u, v, w, c, keys)
    ensures var rs := SpendTwice(u, v, w, Kyc.LimitsFor(level).dailyMinor, c, keys);
      forall i | 0 <= i < |rs| :: Goes(levels, rs[..i], rs[i])
  {
    var rs := SpendTwice(u, v, w, Kyc.LimitsFor(level).dailyMinor, c, keys);
    forall i | 0 <= i < |rs| ensures Goes(levels, rs[..i], rs[i]) {
      SpendTwiceGoes(levels, level, u, v, w, c, keys, i);
    }
  }

  lemma SpendTwiceGoes(levels: map<string, int>, level: int, u: string, v: string, w: string, c: string,
                       keys: seq<string>, i: nat)
    requires Spenders(levels, level, u, v, w, c, keys) && i < 4
    ensures var rs := SpendTwice(u, v, w, Kyc.LimitsFor(level).dailyMinor, c, keys); Goes(levels, rs[..i], rs[i])
  {
    SpendTwiceBookable(levels, level, u, v, w, c, keys, i);
    SpendTwiceTotals(u, v, w, Kyc.LimitsFor(level).dailyMinor, c, keys, u, c);
    SpendTwiceTotals(u, v, w, Kyc.LimitsFor(level).dailyMinor, c, keys, v, c);
  }

  lemma {:induction false} SpenderHasWallet(accounts: map<AccountId, Account>, journal: seq<Posting>, u: string,
                                            c: string, since: int)
    requires forall i | 0 <= i < |journal| :: PostingOk(accounts, journal[i])
    ensures !HasWallet(accounts, u, c) ==> OutgoingSince(accounts, journal, u, c, since) == 0
  {
    if journal != [] {
      var n := |journal| - 1;
      assert PostingOk(accounts, journal[n]);
      SpenderHasWallet(accounts, journal[..n], u, c, since);
      DebitedHasWallet(accounts, journal[n].entries, u, c);
    }
  }

  lemma {:induction false} DebitedHasWallet(accounts: map<AccountId, Account>, entries: seq<JournalEntry>, u: string,
                                            c: string)
    requires forall k | 0 <= k < |entries| :: EntryOk(accounts, entries[k])
    ensures !HasWallet(accounts, u, c) ==> DebitsOf(accounts, entries, u, c) == 0
  {
    if entries != [] {
      var n := |entries| - 1;
      assert EntryOk(accounts, entries[n]);
      DebitedHasWallet(accounts, entries[..n], u, c);
      assert !HasWallet(accounts, u, c) ==> !IsWallet(accounts[entries[n].account], u, c);
    }
  }

  /** What the requests spent, all on the clock's UTC day, are the debits of that day. */
  lemma BookedDebits(s: State, rs: seq<Request>, u: string, c: string) returns (x: AccountId)
    requires Inv(s) && Booked(s, rs) && TotalSpent(rs, u, c) != 0
    ensures x in s.db.accounts && IsWallet(s.db.accounts[x], u, c)
    ensures var d := s.clock / Calendar.DAY;
      DebitsIn(s.db.journal, x, d * Calendar.DAY, (d + 1) * Calendar.DAY) == TotalSpent(rs, u, c)
  {
    var d, day := s.clock / Calendar.DAY, Calendar.StartOfDay(s.clock);
    Calendar.StartsMonotone(s.clock, s.clock);
    SpenderHasWallet(s.db.accounts, s.db.journal, u, c, day);
    x :| x in s.db.accounts && IsWallet(s.db.accounts[x], u, c);
    OutgoingIsDebits(s.db.accounts, s.db.journal, x, day);
    DebitsUpToNow(s.db.journal, x, day, s.clock, (d + 1) * Calendar.DAY);
  }

  /** What served calls put on the clock's day. */
  lemma ServedDay(s: State, t: State, rs: seq<Request>, u: string, c: string) returns (x: AccountId)
    requires AllServed(s, t, rs) && TotalSpent(rs, u, c) != 0
    ensures t.levels == s.levels && x in t.db.accounts && IsWallet(t.db.accounts[x], u, c)
    ensures TopUps(t.db.accounts, t.db.journal, c) == TotalMinted(rs, c)
    ensures var d := s.clock / Calendar.DAY;
      DebitsIn(t.db.journal, x, d * Calendar.DAY, (d + 1) * Calendar.DAY) == TotalSpent(rs, u, c)
  {
    x := BookedDebits(t, rs, u, c);
  }

  lemma SpendTwiceServes(s: State, level: int, u: string, v: string, w: string, c: string, keys: seq<string>)
    requires Init(s) && Spenders(s.levels, level, u, v, w, c, keys)
    requires s.procs == NewCalls(SpendTwice(u, v, w, Kyc.LimitsFor(level).dailyMinor, c, keys))
    ensures CanServe(s, SpendTwice(u, v, w, Kyc.LimitsFor(level).dailyMinor, c, keys))
  {
    SpendTwiceAllGo(s.levels, level, u, v, w, c, keys);
    AllInOrder(s, SpendTwice(u, v, w, Kyc.LimitsFor(level).dailyMinor, c, keys));
  }

  /** The bounds that keep the ceilings are sharp for every level: with top-ups, and a send,
      of one minor unit more, calls made one after another put 2^63 of debits on one day. */
  lemma CeilingOverflows(s: State, level: int, u: string, v: string, w: string, c: string, keys: seq<string>)
    returns (t: State, evs: seq<Event>, x: AccountId)
    requires Init(s) && Spenders(s.levels, level, u, v, w, c, keys)
    requires s.procs == NewCalls(SpendTwice(u, v, w, Kyc.LimitsFor(level).dailyMinor, c, keys))
    ensures GuardedRan(s, t, evs) && t.levels == s.levels
    ensures x in t.db.accounts && IsWallet(t.db.accounts[x], u, c)
    ensures TopUps(t.db.accounts, t.db.journal, c) == MAX - Kyc.LimitsFor(level).dailyMinor + 1
    ensures var d := s.clock / Calendar.DAY;
      DebitsIn(t.db.journal, x, d * Calendar.DAY, (d + 1) * Calendar.DAY) == MAX + 1
  {
    SpendTwiceServes(s, level, u, v, w, c, keys);
    SpendTwiceSum(s.levels, level, u, v, w, c, keys);
    var rs := SpendTwice(u, v, w, Kyc.LimitsFor(level).dailyMinor, c, keys);
    t, evs :| GuardedRan(s, t, evs) && AllServed(s, t, rs);
    x := ServedDay(s, t, rs, u, c);
  }

  /** Such a system exists for every level. */
  lemma CeilingOverflowReachable(level: int) returns (s: State, t: State, evs: seq<Event>, x: AccountId)
    ensures Init(s) && ServiceOnly(s) && s.levels.Values == {level} && GuardedRan(s, t, evs)
    ensures x in t.db.accounts && t.db.accounts[x].Wallet?
    ensures TopUps(t.db.accounts, t.db.journal, "USD") == MAX - Kyc.LimitsFor(level).dailyMinor + 1
    ensures !Ceilings.WithinDay(t.db.journal, x, Ceilings.LimitsOf(t, t.db.accounts[x].user).dailyMinor)
  {
    var keys := ["a", "b", "c", "d"];
    var rs := SpendTwice("u", "v", "w", Kyc.LimitsFor(level).dailyMinor, "USD", keys);
    s := Migrated(rs, map["u" := level, "v" := level]);
    MigratedInit(rs, s.levels);
    t, evs, x := CeilingOverflows(s, level, "u", "v", "w", "USD", keys);
    assert DebitsIn(t.db.journal, x, 0 * Calendar.DAY, (0 + 1) * Calendar.DAY) == MAX + 1;
  }
}
