/** The transfer service as the program writes it: guards, a balance read, ceiling checks
    and one posting, one call at a time over the engine's database. */
module Service {
  import opened Int64
  import opened Ledger
  import opened Protocol
  import opened Invariants
  import opened Simulation
  import opened Engine
  import Spending
  import Transfers
  import Calendar
  import Currency
  import Kyc

  datatype Refusal =
    | InvalidAmount | UnsupportedCurrency | RecipientNotFound | RecipientUnverified
    | SelfTransfer | InsufficientFunds | LimitExceeded | Internal

  datatype Result = Sent(postingId: nat, newBalance: int, currency: string) | Refused(why: Refusal)

  // ----- how balances move ------------------------------------------------------------------

  function CachedIn(accounts: map<AccountId, Account>, x: AccountId): int {
    if x in accounts && accounts[x].Wallet? then accounts[x].cached else 0
  }

  /** Every wallet moved by the request's amount on it, new wallets from zero. */
  ghost predicate Moved(before: map<AccountId, Account>, after: map<AccountId, Account>, r: Request) {
    forall x | x in after && after[x].Wallet? ::
      after[x].cached == CachedIn(before, x) + Transfers.Change(r, after[x])
  }

  ghost predicate Unmoved(before: map<AccountId, Account>, after: map<AccountId, Account>) {
    forall x | x in after && after[x].Wallet? :: after[x].cached == CachedIn(before, x)
  }

  /** One posting of a request moves exactly what it says, whatever wallets were
      provisioned first. */
  lemma PostingMoves(db: Db, evs: seq<Event>, db': Db, r: Request, at: int)
    requires ApplyAll(db, evs) == Some(db') && AtMostOnePosting(db', evs, InputOf(r), at)
    requires WalletsUnique(db'.accounts) && !r.Direct? && Transfers.PastGuards(r)
    ensures NoPostings(evs) ==> Unmoved(db.accounts, db'.accounts) && db'.journal == db.journal
    ensures !NoPostings(evs) ==> Moved(db.accounts, db'.accounts, r)
  {
    if NoPostings(evs) {
      ProvisionsOnlyAdd(db, evs);
    } else {
      var earlier, posting := evs[..|evs| - 1], evs[|evs| - 1].posting;
      ProvisionsOnlyAdd(db, earlier);
      var d := ApplyAll(db, earlier).value;
      var ids :| Resolves(db', InputOf(r).entries, ids) && PostedOnce(evs[|evs| - 1..], InputOf(r), ids, at);
      forall x | x in db'.accounts && db'.accounts[x].Wallet?
        ensures db'.accounts[x].cached == CachedIn(db.accounts, x) + Transfers.Change(r, db'.accounts[x])
      {
        Transfers.RequestRows(db', r, ids, x);
        assert d.accounts[x].cached == CachedIn(db.accounts, x);
      }
    }
  }

  /** A send to oneself, under a spelling of the id the guard does not recognise, moves no
      balance, yet the spending query counts it. */
  lemma SelfSendMovesNothing(before: map<AccountId, Account>, after: map<AccountId, Account>, r: Request, x: AccountId)
    requires r.Send? && r.from == r.to && Moved(before, after, r)
    requires x in after && IsWallet(after[x], r.from, r.currency)
    ensures Unmoved(before, after) && Transfers.Spent(r, after[x]) == r.amountMinor
  {
  }

  // ----- the checks -------------------------------------------------------------------------

  ghost predicate BalanceIs(accounts: map<AccountId, Account>, user: string, currency: string, balance: int) {
    if HasWallet(accounts, user, currency)
    then forall x | x in accounts && IsWallet(accounts[x], user, currency) :: balance == accounts[x].cached
    else balance == 0
  }

  /** The sender's only wallet in the currency holds at least the amount. */
  ghost predicate Covers(accounts: map<AccountId, Account>, user: string, currency: string, amount: int) {
    && HasWallet(accounts, user, currency)
    && forall x | x in accounts && IsWallet(accounts[x], user, currency) :: accounts[x].cached >= amount
  }

  /** Crediting the user keeps the wallet in bigint range. */
  ghost predicate RoomFor(accounts: map<AccountId, Account>, user: string, currency: string, amount: int) {
    forall x | x in accounts && IsWallet(accounts[x], user, currency) :: InRange(accounts[x].cached + amount)
  }

  function SpentToday(db: Db, user: string, currency: string, now: nat): int {
    OutgoingSince(db.accounts, db.journal, user, currency, Calendar.StartOfDay(now))
  }

  function SpentThisMonth(db: Db, user: string, currency: string, now: nat): int {
    OutgoingSince(db.accounts, db.journal, user, currency, Calendar.StartOfMonth(now))
  }

  /** Both comparisons pass, each on its int64 sum. */
  ghost predicate WithinLimits(db: Db, users: map<string, User>, user: string, currency: string, amount: int, now: nat)
  {
    && user in users
    && var limits := Kyc.LimitsFor(users[user].kycLevel);
       && WithinCeiling(SpentToday(db, user, currency, now), amount, limits.dailyMinor)
       && WithinCeiling(SpentThisMonth(db, user, currency, now), amount, limits.monthlyMinor)
  }

  /** One of the two sums was computed and exceeds its limit. A sum that does not fit
      int64 is an error instead. */
  ghost predicate OverLimit(db: Db, users: map<string, User>, user: string, currency: string, amount: int, now: nat) {
    && user in users
    && var limits := Kyc.LimitsFor(users[user].kycLevel);
       var day, month := SpentToday(db, user, currency, now), SpentThisMonth(db, user, currency, now);
       && InRange(day)
       && (!WithinCeiling(day, amount, limits.dailyMinor)
           || (InRange(month) && !WithinCeiling(month, amount, limits.monthlyMinor)))
  }

  /** What the limits promise: both exact sums stay within. */
  ghost predicate ExactlyWithin(db: Db, users: map<string, User>, user: string, currency: string, amount: int, now: nat)
  {
    && user in users
    && var limits := Kyc.LimitsFor(users[user].kycLevel);
       && SpentToday(db, user, currency, now) + amount <= limits.dailyMinor
       && SpentThisMonth(db, user, currency, now) + amount <= limits.monthlyMinor
  }

  /** The comparisons enforce the limits exactly when neither addition they come to
      overflows. */
  lemma LimitsExactIff(db: Db, nextId: nat, users: map<string, User>, user: string, currency: string, amount: int64,
                       now: nat)
    requires JournalOk(db, nextId) && user in users && amount > 0
    ensures var day, month := SpentToday(db, user, currency, now), SpentThisMonth(db, user, currency, now);
      (WithinLimits(db, users, user, currency, amount, now) <==> ExactlyWithin(db, users, user, currency, amount, now))
      <==> (month <= MAX ==>
              && amount <= MAX - day
              && (day + amount <= Kyc.LimitsFor(users[user].kycLevel).dailyMinor ==> amount <= MAX - month))
  {
    var day, month := SpentToday(db, user, currency, now), SpentThisMonth(db, user, currency, now);
    Calendar.StartsMonotone(now, now);
    Spending.OutgoingMonotone(db, nextId, user, currency, Calendar.StartOfMonth(now), Calendar.StartOfDay(now));
    if month <= MAX {
      var limits := Kyc.LimitsFor(users[user].kycLevel);
      Spending.WholeCheckExactIff(day, month, amount, limits.dailyMinor, limits.monthlyMinor);
    }
  }

  /** A limit reported exceeded is exceeded, without overflow; and unless the month's sum
      does not fit int64, the comparisons pass or report it. */
  lemma OverLimitMeans(db: Db, nextId: nat, users: map<string, User>, user: string, currency: string, amount: int64,
                       now: nat)
    requires JournalOk(db, nextId) && user in users && amount > 0
    ensures var limits := Kyc.LimitsFor(users[user].kycLevel);
      var day, month := SpentToday(db, user, currency, now), SpentThisMonth(db, user, currency, now);
      && (OverLimit(db, users, user, currency, amount, now) ==>
            || limits.dailyMinor < day + amount <= MAX
            || (day + amount <= limits.dailyMinor && limits.monthlyMinor < month + amount <= MAX))
      && (month <= MAX ==>
            (OverLimit(db, users, user, currency, amount, now) <==>
              !WithinLimits(db, users, user, currency, amount, now)))
  {
    Calendar.StartsMonotone(now, now);
    Spending.OutgoingMonotone(db, nextId, user, currency, Calendar.StartOfMonth(now), Calendar.StartOfDay(now));
  }

  // ----- when the engine takes a request ------------------------------------------------------

  lemma TwoEntries(e: seq<EntryInput>, c: string, user: string)
    requires |e| == 2
    ensures InputNet(e, c) == (if e[0].currency == c then Signed(e[0].direction, e[0].amountMinor) else 0)
                            + (if e[1].currency == c then Signed(e[1].direction, e[1].amountMinor) else 0)
    ensures InputOn(e, user, c) ==
      (if !e[0].account.IsSystem() && e[0].account.userId == user && e[0].currency == c
       then Signed(e[0].direction, e[0].amountMinor) else 0)
      + (if !e[1].account.IsSystem() && e[1].account.userId == user && e[1].currency == c
         then Signed(e[1].direction, e[1].amountMinor) else 0)
  {
    assert e[..1][..0] == [];
    assert InputNet(e[..1], c) == if e[0].currency == c then Signed(e[0].direction, e[0].amountMinor) else 0;
    assert InputOn(e[..1], user, c) ==
      if !e[0].account.IsSystem() && e[0].account.userId == user && e[0].currency == c
      then Signed(e[0].direction, e[0].amountMinor) else 0;
  }

  lemma RequestBalances(r: Request, c: string)
    requires !r.Direct?
    ensures InputNet(InputOf(r).entries, c) == 0
  {
    TwoEntries(InputOf(r).entries, c, "");
  }

  lemma RequestAccepted(r: Request)
    requires !r.Direct? && Transfers.PastGuards(r)
    ensures Accepts(InputOf(r)) && forall c :: InputNet(InputOf(r).entries, c) == 0
  {
    forall c ensures InputNet(InputOf(r).entries, c) == 0 {
      RequestBalances(r, c);
    }
  }

  /** The request's amount on every wallet, as the engine sums it. */
  lemma RequestOnWallet(r: Request, a: Account)
    requires !r.Direct? && a.Wallet? && Transfers.PastGuards(r)
    ensures Wrap(InputOn(InputOf(r).entries, a.user, a.currency)) == Transfers.Change(r, a)
  {
    TwoEntries(InputOf(r).entries, a.currency, a.user);
  }

  lemma RequestPostable(accounts: map<AccountId, Account>, r: Request)
    requires !r.Direct? && Transfers.PastGuards(r)
    requires forall x | x in accounts && accounts[x].Wallet? :: InRange(accounts[x].cached)
    requires r.Send? ==> Covers(accounts, r.from, r.currency, r.amountMinor)
    ensures Postable(accounts, InputOf(r).entries) <==>
      if r.Send? then r.to == r.from || RoomFor(accounts, r.to, r.currency, r.amountMinor)
      else RoomFor(accounts, r.user, r.currency, r.amountMinor)
  {
    RequestAccepted(r);
    forall x | x in accounts && accounts[x].Wallet?
      ensures Wrap(InputOn(InputOf(r).entries, accounts[x].user, accounts[x].currency))
           == Transfers.Change(r, accounts[x])
    {
      RequestOnWallet(r, accounts[x]);
    }
  }

  /** The user has a wallet in the currency or may get one. */
  ghost predicate MayHold(accounts: map<AccountId, Account>, users: map<string, User>, user: string, currency: string) {
    HasWallet(accounts, user, currency) || user in users
  }

  /** Posting the request succeeds when nothing fails. */
  ghost predicate Takes(db: Db, users: map<string, User>, r: Request) {
    && Resolvable(db.accounts, users, InputOf(r).entries)
    && (KeyUsed(db.journal, InputOf(r).key) || Postable(db.accounts, InputOf(r).entries))
  }

  // ----- the answers a healthy database gives -------------------------------------------------

  /** Why a send is refused, in the order of the checks; None when it is posted or its key
      was already used. */
  ghost function SendRefusal(db: Db, users: map<string, User>, r: Request, now: nat): Option<Refusal>
    requires r.Send?
  {
    if r.spelled == r.from then Some(SelfTransfer)
    else if !Covers(db.accounts, r.from, r.currency, r.amountMinor) then Some(InsufficientFunds)
    else if OverLimit(db, users, r.from, r.currency, r.amountMinor, now) then Some(LimitExceeded)
    else if !WithinLimits(db, users, r.from, r.currency, r.amountMinor, now) then Some(Internal)
    else if !MayHold(db.accounts, users, r.to, r.currency) then Some(Internal)
    else if KeyUsed(db.journal, r.key) || r.to == r.from then None
    else if RoomFor(db.accounts, r.to, r.currency, r.amountMinor) then None
    else Some(Internal)
  }

  /** The recipient is a user whose phone is verified. */
  predicate Verified(users: map<string, User>, to: Option<string>) {
    to.Some? && to.value in users && users[to.value].phoneVerified
  }

  /** Why the amount, the currency or the recipient is refused, if one is. */
  function RecipientRefusal(users: map<string, User>, to: Option<string>, amount: int64,
                            currency: string): Option<Refusal>
  {
    if amount <= 0 then Some(InvalidAmount)
    else if !Currency.IsSupported(currency) then Some(UnsupportedCurrency)
    else if to.None? || to.value !in users then Some(RecipientNotFound)
    else if !users[to.value].phoneVerified then Some(RecipientUnverified)
    else None
  }

  ghost function TransferRefusal(db: Db, users: map<string, User>, to: Option<string>, from: string, spelled: string,
                                 amount: int64, currency: string, key: string, now: nat): Option<Refusal>
  {
    var early := RecipientRefusal(users, to, amount, currency);
    if early.Some? then early
    else SendRefusal(db, users, Send(from, to.value, spelled, amount, currency, key), now)
  }

  ghost function TopUpRefusal(db: Db, users: map<string, User>, user: string, amount: int64, currency: string,
                              key: string): Option<Refusal>
  {
    if amount <= 0 then Some(InvalidAmount)
    else if !Currency.IsSupported(currency) then Some(UnsupportedCurrency)
    else if !SystemsExist(db.accounts, InputOf(TopUp(user, amount, currency, key)).entries) then Some(Internal)
    else if !MayHold(db.accounts, users, user, currency) then Some(Internal)
    else if KeyUsed(db.journal, key) || RoomFor(db.accounts, user, currency, amount) then None
    else Some(Internal)
  }

  /** The answer is the refusal expected, or success when none is. */
  ghost predicate AnswersWith(result: Result, refusal: Option<Refusal>) {
    if refusal.Some? then result == Refused(refusal.value) else result.Sent?
  }

  lemma SendResolvable(accounts: map<AccountId, Account>, users: map<string, User>, r: Request)
    requires r.Send? && HasWallet(accounts, r.from, r.currency)
    ensures Resolvable(accounts, users, InputOf(r).entries) <==> MayHold(accounts, users, r.to, r.currency)
  {
    var e := InputOf(r).entries;
    assert UsersExist(accounts, users, e) ==> MayHold(accounts, users, e[1].account.userId, e[1].currency);
  }

  /** Past its checks, a send is taken or refused with an error. */
  lemma CheckedSend(db: Db, users: map<string, User>, r: Request, now: nat)
    requires r.Send? && Transfers.PastGuards(r) && r.spelled != r.from && CacheOk(db)
    requires Covers(db.accounts, r.from, r.currency, r.amountMinor)
    requires WithinLimits(db, users, r.from, r.currency, r.amountMinor, now)
    ensures SendRefusal(db, users, r, now) == if Takes(db, users, r) then None else Some(Internal)
  {
    SendResolvable(db.accounts, users, r);
    RequestPostable(db.accounts, r);
  }

  lemma CheckedTopUp(db: Db, users: map<string, User>, r: Request)
    requires r.TopUp? && Transfers.PastGuards(r) && Currency.IsSupported(r.currency) && CacheOk(db)
    ensures TopUpRefusal(db, users, r.user, r.amountMinor, r.currency, r.key)
         == if Takes(db, users, r) then None else Some(Internal)
  {
    var e := InputOf(r).entries;
    assert UsersExist(db.accounts, users, e) <==> MayHold(db.accounts, users, e[1].account.userId, e[1].currency);
    RequestPostable(db.accounts, r);
  }

  /** A retry of a committed send under its own key runs the checks again: it is answered
      from the journal exactly when the balance covered the amount twice and the limits
      still leave room for it. */
  lemma RetryAnsweredIff(before: Db, after: Db, users: map<string, User>, r: Request, now: nat, x: AccountId)
    requires r.Send? && r.spelled != r.from && r.from != r.to && WalletsUnique(after.accounts)
    requires Moved(before.accounts, after.accounts, r) && KeyUsed(after.journal, r.key)
    requires x in before.accounts && IsWallet(before.accounts[x], r.from, r.currency)
    requires x in after.accounts && IsWallet(after.accounts[x], r.from, r.currency)
    requires HasWallet(after.accounts, r.to, r.currency)
    ensures SendRefusal(after, users, r, now).None? <==>
      && before.accounts[x].cached >= 2 * r.amountMinor
      && WithinLimits(after, users, r.from, r.currency, r.amountMinor, now)
  {
    assert after.accounts[x].cached == before.accounts[x].cached - r.amountMinor;
    assert Covers(after.accounts, r.from, r.currency, r.amountMinor) <==> after.accounts[x].cached >= r.amountMinor;
  }

  // ----- a service call as one process of the protocol ----------------------------------------

  function LevelsOf(users: map<string, User>): map<string, int> {
    map u | u in users :: users[u].kycLevel
  }

  /** The call alone, not begun. */
  function Starting(call: Caller, db: Db, nextId: nat, clock: nat): State {
    State(db, [NewCall(call.req)], nextId, clock, call.levels)
  }

  /** The call's process answers alike: success with the same posting, or failure. */
  ghost predicate AnswersAs(start: State, call: Caller, result: Result, evs: seq<Event>, db: Db, nextId: nat) {
    exists o: Outcome ::
      && (if result.Sent? then o.Success? && o.id == result.postingId else o.Failure?)
      && Answers(start, call, o, evs, db, nextId)
  }

  lemma RefusedAs(call: Caller, db: Db, nextId: nat, clock: nat, why: Refusal)
    ensures clock <= call.at ==> AnswersAs(Starting(call, db, nextId, clock), call, Refused(why), [], db, nextId)
  {
    if clock <= call.at {
      var s := Starting(call, db, nextId, clock);
      var p := NewCall(call.req).Finish(Failure);
      NeverBegins(s, 0, call.at);
      assert With(s, 0, p, db, nextId, call.at) == Alone(call, p, db, nextId);
      assert Answers(s, call, Failure, [], db, nextId);
    }
  }

  /** What follows a silent beginning answers for the whole call. */
  lemma AnswersAsAfter(s: State, t: State, call: Caller, result: Result, evs: seq<Event>, db: Db, nextId: nat)
    requires Ran(s, t, []) && AnswersAs(t, call, result, evs, db, nextId)
    ensures AnswersAs(s, call, result, evs, db, nextId)
  {
    var o: Outcome :| (if result.Sent? then o.Success? && o.id == result.postingId else o.Failure?)
      && Answers(t, call, o, evs, db, nextId);
    AnswersAfter(s, t, call, o, evs, db, nextId);
  }

  /** The checks of a send, as its process runs them. */
  lemma SendReachesPosting(call: Caller, db: Db, nextId: nat, users: map<string, User>)
    requires call.req.Send? && call.levels == LevelsOf(users) && call.now <= call.at
    requires var r := call.req;
      && Transfers.PastGuards(r) && Currency.IsSupported(r.currency) && r.spelled != r.from
      && Covers(db.accounts, r.from, r.currency, r.amountMinor)
      && WithinLimits(db, users, r.from, r.currency, r.amountMinor, call.now)
    ensures Ran(Starting(call, db, nextId, call.now), Alone(call, Calling(call, []), db, nextId), [])
  {
    var s, r := Starting(call, db, nextId, call.now), call.req;
    var x :| x in db.accounts && IsWallet(db.accounts[x], r.from, r.currency);
    RequestAccepted(r);
    var t := ChecksRun(s, 0, x, call.at);
    assert t == Alone(call, Calling(call, []), db, nextId);
  }

  lemma SendAnswers(call: Caller, db: Db, nextId: nat, users: map<string, User>,
                    result: Result, evs: seq<Event>, db': Db, nextId': nat)
    requires call.req.Send? && call.levels == LevelsOf(users) && Transfers.PastGuards(call.req)
    requires var r := call.req;
      && r.spelled != r.from && Covers(db.accounts, r.from, r.currency, r.amountMinor)
      && WithinLimits(db, users, r.from, r.currency, r.amountMinor, call.now)
    requires AnswersAs(Alone(call, Calling(call, []), db, nextId), call, result, evs, db', nextId')
    ensures Currency.IsSupported(call.req.currency) && call.now <= call.at ==>
      AnswersAs(Starting(call, db, nextId, call.now), call, result, evs, db', nextId')
  {
    if Currency.IsSupported(call.req.currency) && call.now <= call.at {
      SendReachesPosting(call, db, nextId, users);
      AnswersAsAfter(Starting(call, db, nextId, call.now), Alone(call, Calling(call, []), db, nextId),
                     call, result, evs, db', nextId');
    }
  }

  lemma TopUpReachesPosting(call: Caller, db: Db, nextId: nat)
    requires call.req.TopUp? && call.now == 0
    requires Transfers.PastGuards(call.req) && Currency.IsSupported(call.req.currency)
    ensures Ran(Starting(call, db, nextId, call.at), Alone(call, Calling(call, []), db, nextId), [])
  {
    var s := Starting(call, db, nextId, call.at);
    var m := Move(0, Ok, call.at);
    RequestAccepted(call.req);
    assert Enabled(s, m);
    assert Next(s, m) == Alone(call, Calling(call, []), db, nextId);
    RanMove(s, m);
  }

  /** A send that keeps within what the sender has overdraws nothing. */
  lemma CoveredSendOverdrawsNothing(before: map<AccountId, Account>, after: map<AccountId, Account>, r: Request)
    requires Transfers.NonNegative(before) && !r.Direct? && Transfers.PastGuards(r)
    requires Unmoved(before, after) || Moved(before, after, r)
    requires forall x | x in before && before[x].Wallet? ::
      x in after && IsWallet(after[x], before[x].user, before[x].currency)
    requires WalletsUnique(after)
    requires r.Send? && Moved(before, after, r) && !Unmoved(before, after) ==>
      Covers(before, r.from, r.currency, r.amountMinor)
    ensures Transfers.NonNegative(after)
  {
    forall x | x in after && after[x].Wallet? ensures after[x].cached >= 0 {
      assert CachedIn(before, x) >= 0;
      if !Unmoved(before, after) && r.Send? && IsWallet(after[x], r.from, r.currency) {
        var y :| y in before && IsWallet(before[y], r.from, r.currency);
        assert y == x;
      }
    }
  }

  class TransferService {
    const db: Database
    const denotes: string -> Option<string>   // of an id as spelled; None when it is no uuid

    constructor (db: Database, denotes: string -> Option<string>)
      ensures this.db == db && this.denotes == denotes
    {
      this.db, this.denotes := db, denotes;
    }

    /** The cached balance, zero when there is no wallet; None when the query fails. */
    method WalletBalanceMinor(user: string, currency: string) returns (balance: Option<int>)
      requires db.Valid()
      modifies db`faults, db`stray
      ensures db.Valid()
      ensures old(db.faults) == [] ==> balance.Some? && db.faults == []
      ensures balance.Some? ==> BalanceIs(db.accounts, user, currency, balance.value)
    {
      var f, id := db.SelectWallet(user, currency);
      if f != NoFault {
        return None;
      }
      balance := Some(if id.Some? then db.accounts[id.value].cached else 0);
    }

    /** COALESCE(SUM(...), 0), scanned into an int64. */
    method SumOutgoing(user: string, currency: string, since: int) returns (sum: Option<int64>)
      modifies db`faults, db`stray
      ensures sum.Some? ==> sum.value == OutgoingSince(db.accounts, db.journal, user, currency, since)
      ensures old(db.faults) == [] ==> db.faults == []
      ensures old(db.faults) == [] ==>
        (sum.Some? <==> InRange(OutgoingSince(db.accounts, db.journal, user, currency, since)))
    {
      var f := db.Statement();
      var exact := OutgoingSince(db.accounts, db.journal, user, currency, since);
      if f != NoFault || !InRange(exact) {
        return None;
      }
      sum := Some(exact);
    }

    /** One ceiling comparison: the sum since an instant, and the int64 addition. */
    method Exceeds(user: string, currency: string, amount: int64, since: int, ceiling: int) returns (over: Option<bool>)
      modifies db`faults, db`stray
      ensures var sum := OutgoingSince(db.accounts, db.journal, user, currency, since);
        && (over.Some? ==> InRange(sum) && (over.value <==> !WithinCeiling(sum, amount, ceiling)))
        && (old(db.faults) == [] ==> db.faults == [] && (over.Some? <==> InRange(sum)))
    {
      var sum := SumOutgoing(user, currency, since);
      if sum.None? {
        return None;
      }
      over := Some(Wrap(sum.value as int + amount as int) > ceiling);
    }

    /** Passes, or tells an exceeded limit from an error. */
    method CheckLimits(user: string, currency: string, amount: int64, now: nat) returns (why: Option<Refusal>)
      modifies db`faults, db`stray
      ensures why.None? ==> WithinLimits(db.Tables(), db.users, user, currency, amount, now)
      ensures why.Some? ==> why.value in {LimitExceeded, Internal}
      ensures why == Some(LimitExceeded) ==> OverLimit(db.Tables(), db.users, user, currency, amount, now)
      ensures old(db.faults) == [] ==> db.faults == []
      ensures old(db.faults) == [] ==>
        && (why.None? <==> WithinLimits(db.Tables(), db.users, user, currency, amount, now))
        && (why == Some(LimitExceeded) <==> OverLimit(db.Tables(), db.users, user, currency, amount, now))
    {
      var f := db.Statement();
      if f != NoFault || user !in db.users {
        return Some(Internal);
      }
      var limits := Kyc.LimitsFor(db.users[user].kycLevel);
      var daily := Exceeds(user, currency, amount, Calendar.StartOfDay(now), limits.dailyMinor);
      if daily.None? {
        return Some(Internal);
      }
      if daily.value {
        return Some(LimitExceeded);
      }
      var monthly := Exceeds(user, currency, amount, Calendar.StartOfMonth(now), limits.monthlyMinor);
      if monthly.None? {
        return Some(Internal);
      }
      why := if monthly.value then Some(LimitExceeded) else None;
    }

    /** Post a request's entries and read the payer's or payee's balance back; an error of
        that last read is ignored and shows as zero. */
    method PostAndRead(r: Request, reader: string, at: nat, ghost call: Caller)
      returns (result: Result, ghost evs: seq<Event>)
      requires db.Valid() && !r.Direct? && Transfers.PastGuards(r) && call.req == r && call.at == at
      modifies db
      ensures db.Valid() && ApplyAll(old(db.Tables()), evs) == Some(db.Tables())
      ensures if NoPostings(evs) then Unmoved(old(db.accounts), db.accounts) && db.journal == old(db.journal)
              else Moved(old(db.accounts), db.accounts, r)
      ensures AnswersAs(Alone(call, Calling(call, []), old(db.Tables()), old(db.nextPosting)),
                        call, result, evs, db.Tables(), db.nextPosting)
      ensures KeyUsed(old(db.journal), InputOf(r).key) ==> NoPostings(evs)
      ensures result.Sent? ==>
        && IsPosting(db.journal, result.postingId, InputOf(r).key) && result.currency == r.currency
        && (result.newBalance == 0 || BalanceIs(db.accounts, reader, r.currency, result.newBalance))
      ensures result.Refused? ==> result.why == Internal
      ensures old(db.faults) == [] ==>
        && (result.Sent? <==> Takes(old(db.Tables()), db.users, r))
        && (result.Sent? ==> BalanceIs(db.accounts, reader, r.currency, result.newBalance))
    {
      RequestAccepted(r);
      var o;
      ghost var tries;
      o, evs, tries := db.Post(InputOf(r), at, call);
      PostingMoves(old(db.Tables()), evs, db.Tables(), r, at);
      if o.Failure? {
        return Refused(Internal), evs;
      }
      var balance := WalletBalanceMinor(reader, r.currency);
      result := Sent(o.id, if balance.Some? then balance.value else 0, r.currency);
    }

    /** The checks of a send, in order; why it is refused, if it is. The self-transfer guard
        compares the recipient id as the caller spelled it. */
    method Check(r: Request, now: nat) returns (why: Option<Refusal>)
      requires db.Valid() && r.Send? && Transfers.PastGuards(r)
      modifies db`faults, db`stray
      ensures db.Valid()
      ensures why.None? ==>
        && r.spelled != r.from && Covers(db.accounts, r.from, r.currency, r.amountMinor)
        && WithinLimits(db.Tables(), db.users, r.from, r.currency, r.amountMinor, now)
      ensures why in {None, Some(SelfTransfer), Some(InsufficientFunds), Some(LimitExceeded), Some(Internal)}
      ensures why == Some(SelfTransfer) <==> r.spelled == r.from
      ensures why == Some(InsufficientFunds) ==>
        r.spelled != r.from && !Covers(db.accounts, r.from, r.currency, r.amountMinor)
      ensures why == Some(LimitExceeded) ==>
        && r.spelled != r.from && Covers(db.accounts, r.from, r.currency, r.amountMinor)
        && OverLimit(db.Tables(), db.users, r.from, r.currency, r.amountMinor, now)
      ensures old(db.faults) == [] ==>
        && (why == Some(InsufficientFunds) <==>
              r.spelled != r.from && !Covers(db.accounts, r.from, r.currency, r.amountMinor))
        && (why == Some(LimitExceeded) <==>
              && r.spelled != r.from && Covers(db.accounts, r.from, r.currency, r.amountMinor)
              && OverLimit(db.Tables(), db.users, r.from, r.currency, r.amountMinor, now))
      ensures why.Some? && why.value != Internal ==> SendRefusal(db.Tables(), db.users, r, now) == why
      ensures old(db.faults) == [] ==> db.faults == []
      ensures old(db.faults) == [] && why.Some? ==> SendRefusal(db.Tables(), db.users, r, now) == why
    {
      if r.spelled == r.from {
        return Some(SelfTransfer);
      }
      var balance := WalletBalanceMinor(r.from, r.currency);
      if balance.None? {
        return Some(Internal);
      }
      if balance.value < r.amountMinor {
        return Some(InsufficientFunds);
      }
      why := CheckLimits(r.from, r.currency, r.amountMinor, now);
    }

    /** The shared path once the recipient is known. */
    method Execute(from: string, to: string, spelled: string, amount: int64, currency: string, key: string, now: nat,
                   at: nat)
      returns (result: Result, ghost evs: seq<Event>)
      requires db.Valid() && amount > 0
      modifies db
      ensures db.Valid() && ApplyAll(old(db.Tables()), evs) == Some(db.Tables())
      ensures if NoPostings(evs) then Unmoved(old(db.accounts), db.accounts) && db.journal == old(db.journal)
              else Moved(old(db.accounts), db.accounts, Send(from, to, spelled, amount, currency, key))
      ensures !NoPostings(evs) ==>
        && spelled != from && !KeyUsed(old(db.journal), key) && Covers(old(db.accounts), from, currency, amount)
        && WithinLimits(old(db.Tables()), db.users, from, currency, amount, now)
      ensures var r := Send(from, to, spelled, amount, currency, key);
        && (result.Refused? && result.why != Internal ==>
              SendRefusal(old(db.Tables()), db.users, r, now) == Some(result.why))
        && (old(db.faults) == [] ==> AnswersWith(result, SendRefusal(old(db.Tables()), db.users, r, now)))
      ensures result == Refused(SelfTransfer) <==> spelled == from
      ensures result == Refused(InsufficientFunds) ==>
        spelled != from && !Covers(old(db.accounts), from, currency, amount)
      ensures result == Refused(LimitExceeded) ==>
        && spelled != from && Covers(old(db.accounts), from, currency, amount)
        && OverLimit(old(db.Tables()), db.users, from, currency, amount, now)
      ensures old(db.faults) == [] ==>
        && (result == Refused(InsufficientFunds) <==>
              spelled != from && !Covers(old(db.accounts), from, currency, amount))
        && (result == Refused(LimitExceeded) <==>
              && spelled != from && Covers(old(db.accounts), from, currency, amount)
              && OverLimit(old(db.Tables()), db.users, from, currency, amount, now))
      ensures result.Refused? ==> result.why in {SelfTransfer, InsufficientFunds, LimitExceeded, Internal}
      ensures result.Sent? ==> IsPosting(db.journal, result.postingId, key) && result.currency == currency
      ensures result.Sent? && old(db.faults) == [] ==> BalanceIs(db.accounts, from, currency, result.newBalance)
      ensures result.Sent? && !KeyUsed(old(db.journal), key) ==> !NoPostings(evs)
      ensures Currency.IsSupported(currency) && now <= at ==>
        var call := Caller(Send(from, to, spelled, amount, currency, key), now, LevelsOf(db.users), at);
        AnswersAs(Starting(call, old(db.Tables()), old(db.nextPosting), now),
                  call, result, evs, db.Tables(), db.nextPosting)
    {
      ghost var before, first := db.Tables(), db.nextPosting;
      var r := Send(from, to, spelled, amount, currency, key);
      ghost var call := Caller(r, now, LevelsOf(db.users), at);
      var why := Check(r, now);
      if why.Some? {
        RefusedAs(call, before, first, now, why.value);
        return Refused(why.value), [];
      }
      CheckedSend(before, db.users, r, now);
      result, evs := PostAndRead(r, from, at, call);
      SendAnswers(call, before, first, db.users, result, evs, db.Tables(), db.nextPosting);
    }

    /** Pay a user named by id. */
    method TransferToUser(from: string, spelled: string, amount: int64, currency: string, key: string, now: nat,
                          at: nat)
      returns (result: Result, ghost evs: seq<Event>)
      requires db.Valid()
      modifies db
      ensures db.Valid() && ApplyAll(old(db.Tables()), evs) == Some(db.Tables())
      ensures result.Sent? ==> IsPosting(db.journal, result.postingId, key) && result.currency == currency
      ensures result.Sent? && !KeyUsed(old(db.journal), key) ==> !NoPostings(evs)
      ensures result.Sent? && old(db.faults) == [] ==> BalanceIs(db.accounts, from, currency, result.newBalance)
      ensures result == Refused(InvalidAmount) <==> amount <= 0
      ensures result == Refused(UnsupportedCurrency) <==> amount > 0 && !Currency.IsSupported(currency)
      ensures result == Refused(RecipientNotFound) ==>
        amount > 0 && Currency.IsSupported(currency) && (denotes(spelled).None? || denotes(spelled).value !in db.users)
      ensures result == Refused(RecipientUnverified) ==>
        && amount > 0 && Currency.IsSupported(currency)
        && denotes(spelled).Some? && denotes(spelled).value in db.users
        && !db.users[denotes(spelled).value].phoneVerified
      ensures result == Refused(SelfTransfer) ==>
        && amount > 0 && Currency.IsSupported(currency)
        && spelled == from && Verified(db.users, denotes(spelled))
      ensures result == Refused(InsufficientFunds) ==>
        && amount > 0 && Currency.IsSupported(currency)
        && spelled != from && Verified(db.users, denotes(spelled))
        && !Covers(old(db.accounts), from, currency, amount)
      ensures result == Refused(LimitExceeded) ==>
        && amount > 0 && Currency.IsSupported(currency)
        && spelled != from && Verified(db.users, denotes(spelled))
        && Covers(old(db.accounts), from, currency, amount)
        && OverLimit(old(db.Tables()), db.users, from, currency, amount, now)
      ensures old(db.faults) == [] && amount > 0 && Currency.IsSupported(currency) ==>
        && (result == Refused(RecipientNotFound) <==>
              denotes(spelled).None? || denotes(spelled).value !in db.users)
        && (result == Refused(RecipientUnverified) <==>
              && denotes(spelled).Some? && denotes(spelled).value in db.users
              && !db.users[denotes(spelled).value].phoneVerified)
        && (result == Refused(SelfTransfer) <==> Verified(db.users, denotes(spelled)) && spelled == from)
        && (result == Refused(InsufficientFunds) <==>
              && Verified(db.users, denotes(spelled)) && spelled != from
              && !Covers(old(db.accounts), from, currency, amount))
        && (result == Refused(LimitExceeded) <==>
              && Verified(db.users, denotes(spelled)) && spelled != from
              && Covers(old(db.accounts), from, currency, amount)
              && OverLimit(old(db.Tables()), db.users, from, currency, amount, now))
      ensures var refusal :=
          TransferRefusal(old(db.Tables()), db.users, denotes(spelled), from, spelled, amount, currency, key, now);
        && (result.Refused? && result.why != Internal ==> refusal == Some(result.why))
        && (old(db.faults) == [] ==> AnswersWith(result, refusal))
      ensures !NoPostings(evs) ==>
        && amount > 0 && Currency.IsSupported(currency) && spelled != from
        && denotes(spelled).Some? && denotes(spelled).value in db.users
        && db.users[denotes(spelled).value].phoneVerified
        && Moved(old(db.accounts), db.accounts, Send(from, denotes(spelled).value, spelled, amount, currency, key))
        && Covers(old(db.accounts), from, currency, amount)
        && WithinLimits(old(db.Tables()), db.users, from, currency, amount, now)
      ensures NoPostings(evs) ==> Unmoved(old(db.accounts), db.accounts) && db.journal == old(db.journal)
      ensures Transfers.NonNegative(old(db.accounts)) ==> Transfers.NonNegative(db.accounts)
      ensures KeyUsed(old(db.journal), key) ==> NoPostings(evs)
      ensures denotes(spelled).None? ==> evs == [] && db.Tables() == old(db.Tables())
      ensures denotes(spelled).Some? && now <= at ==>
        var r := Send(from, denotes(spelled).value, spelled, amount, currency, key);
        var call := Caller(r, now, LevelsOf(db.users), at);
        AnswersAs(Starting(call, old(db.Tables()), old(db.nextPosting), now),
                  call, result, evs, db.Tables(), db.nextPosting)
    {
      ghost var before, first := db.Tables(), db.nextPosting;
      var why := CheckRecipient(spelled, amount, currency);
      if why.Some? {
        if denotes(spelled).Some? {
          ghost var r := Send(from, denotes(spelled).value, spelled, amount, currency, key);
          RefusedAs(Caller(r, now, LevelsOf(db.users), at), before, first, now, why.value);
        }
        return Refused(why.value), [];
      }
      var to := denotes(spelled).value;
      result, evs := Execute(from, to, spelled, amount, currency, key, now, at);
      if Transfers.NonNegative(before.accounts) {
        EventsGrow(before, evs);
        CoveredSendOverdrawsNothing(before.accounts, db.accounts, Send(from, to, spelled, amount, currency, key));
      }
    }

    /** The guards on the amount, the currency and the recipient. */
    method CheckRecipient(spelled: string, amount: int64, currency: string) returns (why: Option<Refusal>)
      modifies db`faults, db`stray
      ensures why.None? ==>
        && amount > 0 && Currency.IsSupported(currency)
        && denotes(spelled).Some? && denotes(spelled).value in db.users
        && db.users[denotes(spelled).value].phoneVerified
      ensures why in {None, Some(InvalidAmount), Some(UnsupportedCurrency), Some(RecipientNotFound),
                      Some(RecipientUnverified), Some(Internal)}
      ensures why == Some(InvalidAmount) <==> amount <= 0
      ensures why == Some(UnsupportedCurrency) <==> amount > 0 && !Currency.IsSupported(currency)
      ensures why == Some(RecipientNotFound) ==>
        amount > 0 && Currency.IsSupported(currency) && (denotes(spelled).None? || denotes(spelled).value !in db.users)
      ensures why == Some(RecipientUnverified) ==>
        && amount > 0 && Currency.IsSupported(currency)
        && denotes(spelled).Some? && denotes(spelled).value in db.users
        && !db.users[denotes(spelled).value].phoneVerified
      ensures old(db.faults) == [] && amount > 0 && Currency.IsSupported(currency) ==>
        && (why == Some(RecipientNotFound) <==> denotes(spelled).None? || denotes(spelled).value !in db.users)
        && (why.None? <==> Verified(db.users, denotes(spelled)))
      ensures why.Some? && why.value != Internal ==>
        why == RecipientRefusal(db.users, denotes(spelled), amount, currency)
      ensures old(db.faults) == [] ==>
        db.faults == [] && why == RecipientRefusal(db.users, denotes(spelled), amount, currency)
    {
      if amount <= 0 {
        return Some(InvalidAmount);
      }
      if !Currency.IsSupported(currency) {
        return Some(UnsupportedCurrency);
      }
      var to := denotes(spelled);
      if to.None? {
        return Some(RecipientNotFound);
      }
      var f := db.Statement();
      if f != NoFault {
        return Some(Internal);
      }
      if to.value !in db.users {
        return Some(RecipientNotFound);
      }
      why := if db.users[to.value].phoneVerified then None else Some(RecipientUnverified);
    }

    method TopUp(user: string, amount: int64, currency: string, key: string, at: nat)
      returns (result: Result, ghost evs: seq<Event>)
      requires db.Valid()
      modifies db
      ensures db.Valid() && ApplyAll(old(db.Tables()), evs) == Some(db.Tables())
      ensures result.Sent? ==> IsPosting(db.journal, result.postingId, key) && result.currency == currency
      ensures result.Sent? && old(db.faults) == [] ==> BalanceIs(db.accounts, user, currency, result.newBalance)
      ensures result.Sent? && !KeyUsed(old(db.journal), key) ==> !NoPostings(evs)
      ensures result == Refused(InvalidAmount) <==> amount <= 0
      ensures result == Refused(UnsupportedCurrency) <==> amount > 0 && !Currency.IsSupported(currency)
      ensures result.Refused? ==> result.why in {InvalidAmount, UnsupportedCurrency, Internal}
      ensures var refusal := TopUpRefusal(old(db.Tables()), db.users, user, amount, currency, key);
        && (result.Refused? && result.why != Internal ==> refusal == Some(result.why))
        && (old(db.faults) == [] ==> AnswersWith(result, refusal))
      ensures if NoPostings(evs) then Unmoved(old(db.accounts), db.accounts) && db.journal == old(db.journal)
              else Moved(old(db.accounts), db.accounts, Request.TopUp(user, amount, currency, key))
      ensures KeyUsed(old(db.journal), key) ==> NoPostings(evs)
      ensures var call := Caller(Request.TopUp(user, amount, currency, key), 0, LevelsOf(db.users), at);
        AnswersAs(Starting(call, old(db.Tables()), old(db.nextPosting), at),
                  call, result, evs, db.Tables(), db.nextPosting)
    {
      ghost var before, first := db.Tables(), db.nextPosting;
      var r := Request.TopUp(user, amount, currency, key);
      ghost var call := Caller(r, 0, LevelsOf(db.users), at);
      if amount <= 0 {
        RefusedAs(call, before, first, at, InvalidAmount);
        return Refused(InvalidAmount), [];
      }
      if !Currency.IsSupported(currency) {
        RefusedAs(call, before, first, at, UnsupportedCurrency);
        return Refused(UnsupportedCurrency), [];
      }
      CheckedTopUp(before, db.users, r);
      TopUpReachesPosting(call, before, first);
      result, evs := PostAndRead(r, user, at, call);
      AnswersAsAfter(Starting(call, before, first, at), Alone(call, Calling(call, []), before, first),
                     call, result, evs, db.Tables(), db.nextPosting);
    }
  }
}
