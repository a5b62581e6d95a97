/** The engine as the program writes it: loops, a retry counter and SQL statements
    one after another, here with no other call in between. Which statements fail,
    and which take effect and still report an error, comes from a fault script.
    Its effect is stated in the atomic ledger events that every interleaving refines,
    and each call is shown to be a run of one process of the protocol. */
module Engine {
  import opened Int64
  import opened Ledger
  import opened Protocol
  import opened Invariants
  import opened Simulation
  import Preservation

  datatype Fault = NoFault | Fails(err: Error) | TakesEffectThenFails(err: Error)

  datatype Attempt = Committed(id: nat) | Errored(err: Error)

  /** Some statement of the script fails with a retryable error. */
  ghost predicate MayRetry(faults: seq<Fault>) {
    exists k :: 0 <= k < |faults| && faults[k] != NoFault && faults[k].err == Retryable
  }

  /** Every failing statement of the script fails with a retryable error, without effect. */
  ghost predicate OnlyRetryable(faults: seq<Fault>) {
    forall k | 0 <= k < |faults| :: faults[k] == NoFault || faults[k] == Fails(Retryable)
  }

  /** The transactions of one call: so many that ended in a retryable error, then one. */
  datatype Tries = Untried | Tried(retried: nat, last: Attempt)

  function EndingsOf(t: Tries): seq<Attempt> {
    match t
    case Untried => []
    case Tried(n, last) => Retries(n) + [last]
  }

  function Retries(n: nat): seq<Attempt> {
    seq(n, _ => Errored(Retryable))
  }

  lemma RetriesStep(endings: seq<Attempt>, n: nat)
    ensures endings + Retries(n) + [Errored(Retryable)] == endings + Retries(n + 1)
  {
  }

  /** A transaction that ends in a retryable error is followed by another, up to eight. */
  predicate Retried(t: Tries) {
    t.Tried? ==> t.retried < 8 && (t.last == Errored(Retryable) ==> t.retried == 7)
  }

  /** Eight transactions, each ended by a retryable error. */
  predicate Exhausted(t: Tries) {
    t.Tried? && t.retried == 7 && t.last == Errored(Retryable)
  }

  /** What the last transaction leaves to answer. */
  predicate AnswersLast(r: Outcome, t: Tries) {
    match t
    case Untried => r == Failure
    case Tried(_, last) => AnswersAttempt(r, last)
  }

  predicate AnswersAttempt(r: Outcome, last: Attempt) {
    match last
    case Committed(id) => r == Success(id, false)
    case Errored(Unique) => r.Success? ==> r.replayed
    case Errored(_) => r == Failure
  }

  /** A users row, as far as transfers read it. */
  datatype User = User(phoneVerified: bool, kycLevel: int)

  /** Every user named by an entry has a wallet in its currency or may get one: the
      wallet's user_id must name a users row. */
  ghost predicate UsersExist(accounts: map<AccountId, Account>, users: map<string, User>, entries: seq<EntryInput>) {
    forall i | 0 <= i < |entries| && !entries[i].account.IsSystem() ::
      HasWallet(accounts, entries[i].account.userId, entries[i].currency) || entries[i].account.userId in users
  }

  lemma WalletStays(db: Db, db': Db, user: string, currency: string)
    requires Grows(db, db') && HasWallet(db.accounts, user, currency)
    ensures HasWallet(db'.accounts, user, currency)
  {
    var x :| x in db.accounts && IsWallet(db.accounts[x], user, currency);
    assert IsWallet(db'.accounts[x], user, currency);
  }

  lemma UserMissing(db: Db, db': Db, users: map<string, User>, entries: seq<EntryInput>, i: nat)
    requires Grows(db, db') && i < |entries| && !entries[i].account.IsSystem()
    requires !HasWallet(db'.accounts, entries[i].account.userId, entries[i].currency)
    requires entries[i].account.userId !in users
    ensures !UsersExist(db.accounts, users, entries)
  {
    if HasWallet(db.accounts, entries[i].account.userId, entries[i].currency) {
      WalletStays(db, db', entries[i].account.userId, entries[i].currency);
    }
  }

  /** Wallets that came with provisions belong to known users. */
  ghost predicate NewOwnersKnown(db: Db, db': Db, users: map<string, User>) {
    forall x | x in db'.accounts && x !in db.accounts :: db'.accounts[x].Wallet? && db'.accounts[x].user in users
  }

  lemma UsersPresent(db: Db, db': Db, users: map<string, User>, entries: seq<EntryInput>, ids: seq<AccountId>)
    requires Grows(db, db') && NewOwnersKnown(db, db', users) && |ids| == |entries| && Resolves(db', entries, ids)
    ensures UsersExist(db.accounts, users, entries)
  {
    forall i | 0 <= i < |entries| && !entries[i].account.IsSystem()
      ensures || HasWallet(db.accounts, entries[i].account.userId, entries[i].currency)
              || entries[i].account.userId in users
    {
      assert RowIs(db', ids[i], entries[i]);
      if ids[i] in db.accounts {
        assert IsWallet(db.accounts[ids[i]], entries[i].account.userId, entries[i].currency);
      }
    }
  }

  predicate NoPostings(evs: seq<Event>) {
    forall i | 0 <= i < |evs| :: evs[i].Provisioned?
  }

  ghost predicate SystemsExist(accounts: map<AccountId, Account>, entries: seq<EntryInput>) {
    forall i | 0 <= i < |entries| && entries[i].account.IsSystem() ::
      exists x :: x in accounts && accounts[x].System? && accounts[x].code == entries[i].account.systemCode
  }

  lemma SystemMissing(db: Db, db': Db, entries: seq<EntryInput>, i: nat)
    requires Grows(db, db') && i < |entries| && entries[i].account.IsSystem()
    requires forall x | x in db'.accounts && db'.accounts[x].System? ::
      db'.accounts[x].code != entries[i].account.systemCode
    ensures !SystemsExist(db.accounts, entries)
  {
    forall x | x in db.accounts && db.accounts[x].System? ensures db.accounts[x].code != entries[i].account.systemCode {
      assert db'.accounts[x] == db.accounts[x];
    }
  }

  lemma SystemPresent(db: Db, db': Db, entries: seq<EntryInput>, ids: seq<AccountId>)
    requires Grows(db, db') && Resolves(db', entries, ids) && |ids| == |entries|
    requires forall x | x in db'.accounts && db'.accounts[x].System? :: x in db.accounts
    ensures SystemsExist(db.accounts, entries)
  {
    forall i | 0 <= i < |entries| && entries[i].account.IsSystem()
      ensures exists x ::
        x in db.accounts && db.accounts[x].System? && db.accounts[x].code == entries[i].account.systemCode
    {
      assert RowIs(db', ids[i], entries[i]);
      assert db.accounts[ids[i]].code == entries[i].account.systemCode;
    }
  }

  lemma GrowsTwice(a: Db, b: Db, c: Db)
    requires Grows(a, b) && Grows(b, c)
    ensures Grows(a, c)
  {
  }

  lemma {:induction false} AppendEvents(db: Db, a: seq<Event>, b: seq<Event>)
    requires ApplyAll(db, a).Some?
    ensures ApplyAll(db, a + b) == ApplyAll(ApplyAll(db, a).value, b)
  {
    if b == [] {
      assert a + b == a;
    } else {
      AppendEvents(db, a, b[..|b| - 1]);
      assert (a + b)[..|a + b| - 1] == a + b[..|b| - 1];
    }
  }

  lemma LocksStep(entries: seq<EntryInput>, ids: seq<AccountId>, id: AccountId, i: nat)
    requires i < |entries| && |ids| == i
    ensures WalletIds(entries[..i + 1], ids + [id])
         == WalletIds(entries[..i], ids) + if entries[i].account.IsSystem() then {} else {id}
  {
    WalletIdsStep(entries[..i + 1], ids + [id], i);
    assert entries[..i + 1][..i] == entries[..i] && (ids + [id])[..i] == ids;
    assert entries[..i + 1][..i + 1] == entries[..i + 1] && (ids + [id])[..i + 1] == ids + [id];
  }

  lemma ResolvesStep(db: Db, entries: seq<EntryInput>, ids: seq<AccountId>, id: AccountId)
    requires Resolves(db, entries, ids) && |ids| < |entries| && RowIs(db, id, entries[|ids|])
    ensures Resolves(db, entries, ids + [id])
  {
  }

  // ----- when the database takes a posting --------------------------------------------------

  /** Provisions only add wallets of balance zero. */
  ghost predicate OnlyAdds(db: Db, db': Db) {
    && db'.journal == db.journal
    && (forall x | x in db.accounts :: x in db'.accounts && db'.accounts[x] == db.accounts[x])
    && (forall x | x in db'.accounts && x !in db.accounts :: db'.accounts[x].Wallet? && db'.accounts[x].cached == 0)
  }

  lemma {:induction false} ProvisionsOnlyAdd(db: Db, evs: seq<Event>)
    requires NoPostings(evs) && ApplyAll(db, evs).Some?
    ensures OnlyAdds(db, ApplyAll(db, evs).value)
  {
    if evs != [] {
      ProvisionsOnlyAdd(db, evs[..|evs| - 1]);
    }
  }

  /** Signed sum of the entries on a user's wallet in a currency. */
  function InputOn(entries: seq<EntryInput>, user: string, currency: string): int {
    if entries == [] then 0
    else
      var e := entries[|entries| - 1];
      InputOn(entries[..|entries| - 1], user, currency)
      + if !e.account.IsSystem() && e.account.userId == user && e.currency == currency
        then Signed(e.direction, e.amountMinor) else 0
  }

  lemma {:induction false} InputOnIsOnAccount(db: Db, entries: seq<EntryInput>, ids: seq<AccountId>, x: AccountId)
    requires WalletsUnique(db.accounts) && |ids| == |entries| && Resolves(db, entries, ids)
    requires x in db.accounts && db.accounts[x].Wallet?
    ensures OnAccount(Resolved(entries, ids), x) == InputOn(entries, db.accounts[x].user, db.accounts[x].currency)
  {
    if entries != [] {
      var n := |entries| - 1;
      assert RowIs(db, ids[n], entries[n]);
      InputOnIsOnAccount(db, entries[..n], ids[..n], x);
      assert Resolved(entries, ids)[..n] == Resolved(entries[..n], ids[..n]);
    }
  }

  /** The database takes the posting: every currency balances exactly, and every wallet
      it names stays in bigint range. */
  ghost predicate Postable(accounts: map<AccountId, Account>, entries: seq<EntryInput>) {
    && (forall c :: InputNet(entries, c) == 0)
    && (forall x | x in accounts && accounts[x].Wallet? ::
          InRange(accounts[x].cached + Wrap(InputOn(entries, accounts[x].user, accounts[x].currency))))
  }

  /** The input can never be posted on these tables. */
  ghost predicate Rejected(db: Db, users: map<string, User>, input: PostingInput) {
    || !Accepts(input) || !Resolvable(db.accounts, users, input.entries)
    || (!KeyUsed(db.journal, input.key) && !Postable(db.accounts, input.entries))
  }

  ghost predicate PostsCleanly(db: Db, rows: seq<JournalEntry>) {
    Balanced(rows) && Fits(db.accounts, rows)
  }

  lemma PostableIff(db: Db, db': Db, entries: seq<EntryInput>, ids: seq<AccountId>)
    requires OnlyAdds(db, db') && WalletsUnique(db'.accounts) && |ids| == |entries| && Resolves(db', entries, ids)
    ensures PostsCleanly(db', Resolved(entries, ids)) <==> Postable(db.accounts, entries)
  {
    var rows := Resolved(entries, ids);
    forall c ensures NetIn(rows, c) == InputNet(entries, c) {
      ResolvedNet(entries, ids, c);
    }
    forall x | x in db'.accounts && db'.accounts[x].Wallet?
      ensures Delta(rows, x) == Wrap(InputOn(entries, db'.accounts[x].user, db'.accounts[x].currency))
    {
      InputOnIsOnAccount(db', entries, ids, x);
    }
    forall x | x in db.accounts && db.accounts[x].Wallet?
      ensures db'.accounts[x] == db.accounts[x] && x in db'.accounts
    {
    }
  }

  /** What Post has worked out before its first transaction. */
  ghost predicate Prepared(db: Db, input: PostingInput, ids: seq<AccountId>, locks: set<AccountId>,
                           deltas: map<AccountId, int64>)
  {
    && Accepts(input)
    && |ids| == |input.entries| && Resolves(db, input.entries, ids)
    && locks == deltas.Keys == WalletIds(input.entries, ids)
    && forall x | x in deltas :: deltas[x] == Delta(Resolved(input.entries, ids), x)
  }

  // ----- the call as a process of the protocol ----------------------------------------------

  /** A call as the protocol sees it: its request, the clock reading of its checks, the
      levels in force, and the instant of its posting. */
  datatype Caller = Caller(req: Request, now: nat, levels: map<string, int>, at: nat) {
    function Input(): PostingInput { InputOf(req) }

    function Entries(): seq<EntryInput> { Input().entries }
  }

  /** The process of a call whose first |ids| entries are resolved. */
  function Calling(call: Caller, ids: seq<AccountId>): Proc {
    NewCall(call.req).(pc := if |ids| == |call.Entries()| then Ready else Resolving, now := call.now, ids := ids)
  }

  /** Only that process, at the instant of its posting. */
  function Alone(call: Caller, p: Proc, db: Db, nextId: nat): State {
    State(db, [p], nextId, call.at, call.levels)
  }

  lemma AloneInv(call: Caller, p: Proc, db: Db, nextId: nat)
    requires WalletsUnique(db.accounts) && CacheOk(db) && JournalOk(db, nextId)
    requires Accepts(InputOf(p.req)) && p.pc.Ready? && p.held == {} && p.attempt < MAX_RETRIES
    requires |p.ids| == |p.Entries()| && Resolves(db, p.Entries(), p.ids)
    ensures Inv(Alone(call, p, db, nextId)) && IdleButFor(Alone(call, p, db, nextId), 0)
  {
  }

  /** A run from `start` in which the call ends with answer r, these events, these tables
      and this counter of posting ids. */
  ghost predicate Answers(start: State, call: Caller, r: Outcome, evs: seq<Event>, db: Db, nextId: nat) {
    exists p: Proc :: p.pc.Done? && p.outcome == r && Ran(start, Alone(call, p, db, nextId), evs)
  }

  lemma AnswersAfter(s: State, t: State, call: Caller, r: Outcome, evs: seq<Event>, db: Db, nextId: nat)
    requires Ran(s, t, []) && Answers(t, call, r, evs, db, nextId)
    ensures Answers(s, call, r, evs, db, nextId)
  {
    var p: Proc :| p.pc.Done? && p.outcome == r && Ran(t, Alone(call, p, db, nextId), evs);
    RanThrough(s, t, Alone(call, p, db, nextId), [], evs);
    assert [] + evs == evs;
  }

  /** A bare posting call validates and begins, or fails. */
  lemma DirectBegins(call: Caller, db: Db, nextId: nat)
    requires call.req.Direct? && call.now == 0
    ensures var p := NewCall(call.req);
      Ran(Alone(call, p, db, nextId),
          Alone(call, if Accepts(call.Input()) then Calling(call, []) else p.Finish(Failure), db, nextId), [])
  {
    var p := NewCall(call.req);
    var s := Alone(call, p, db, nextId);
    var m := Move(0, Ok, call.at);
    assert Enabled(s, m);
    var q := if Accepts(call.Input()) then Calling(call, []) else p.Finish(Failure);
    assert Next(s, m) == Alone(call, q, db, nextId);
    RanMove(s, m);
  }

  lemma DirectAnswers(call: Caller, db: Db, nextId: nat, r: Outcome, evs: seq<Event>, db': Db, nextId': nat)
    requires if Accepts(call.Input())
             then Answers(Alone(call, Calling(call, []), db, nextId), call, r, evs, db', nextId')
             else r == Failure && evs == [] && db' == db && nextId' == nextId
    ensures call.req.Direct? && call.now == 0 ==>
      Answers(Alone(call, NewCall(call.req), db, nextId), call, r, evs, db', nextId')
  {
    if call.req.Direct? && call.now == 0 {
      DirectBegins(call, db, nextId);
      if Accepts(call.Input()) {
        AnswersAfter(Alone(call, NewCall(call.req), db, nextId), Alone(call, Calling(call, []), db, nextId),
                     call, r, evs, db', nextId');
      }
    }
  }

  /** One entry more. */
  lemma EntryAlone(call: Caller, ids: seq<AccountId>, db: Db, nextId: nat,
                   id: Option<AccountId>, evs: seq<Event>, db': Db)
    requires |ids| < |call.Entries()| && EntryOutcome(db, call.Entries()[|ids|], id, evs, db')
    ensures Ran(Alone(call, Calling(call, ids), db, nextId),
                Alone(call, AfterEntry(Calling(call, ids), id), db', nextId), evs)
    ensures id.Some? ==> AfterEntry(Calling(call, ids), id) == Calling(call, ids + [id.value])
  {
    var s := Alone(call, Calling(call, ids), db, nextId);
    EntryRun(s, 0, call.at, id, evs, db');
    assert With(s, 0, AfterEntry(Calling(call, ids), id), db', nextId, call.at)
        == Alone(call, AfterEntry(Calling(call, ids), id), db', nextId);
  }

  lemma NamedWallets(db: Db, entries: seq<EntryInput>, ids: seq<AccountId>)
    requires |ids| == |entries| && Resolves(db, entries, ids)
    ensures forall x | x in WalletIds(entries, ids) :: x in db.accounts && db.accounts[x].Wallet?
  {
    forall x | x in WalletIds(entries, ids) ensures x in db.accounts && db.accounts[x].Wallet? {
      WalletIdsAreWallets(db, entries, ids, x);
    }
  }

  /** The entry names a system account that does not exist, or a wallet that neither
      exists nor may be inserted. */
  ghost predicate Unresolvable(db: Db, users: map<string, User>, e: EntryInput) {
    if e.account.IsSystem()
    then forall x | x in db.accounts && db.accounts[x].System? :: db.accounts[x].code != e.account.systemCode
    else !HasWallet(db.accounts, e.account.userId, e.currency) && e.account.userId !in users
  }

  ghost predicate Resolvable(accounts: map<AccountId, Account>, users: map<string, User>, entries: seq<EntryInput>) {
    SystemsExist(accounts, entries) && UsersExist(accounts, users, entries)
  }

  lemma SomeUnresolvable(db: Db, db': Db, users: map<string, User>, entries: seq<EntryInput>)
    requires Grows(db, db')
    ensures (exists i :: 0 <= i < |entries| && Unresolvable(db', users, entries[i])) ==>
      !Resolvable(db.accounts, users, entries)
  {
    if i: nat :| i < |entries| && Unresolvable(db', users, entries[i]) {
      UnresolvableEntry(db, db', users, entries, i);
    }
  }

  lemma UnresolvableEntry(db: Db, db': Db, users: map<string, User>, entries: seq<EntryInput>, i: nat)
    requires Grows(db, db') && i < |entries| && Unresolvable(db', users, entries[i])
    ensures !Resolvable(db.accounts, users, entries)
  {
    if entries[i].account.IsSystem() {
      SystemMissing(db, db', entries, i);
    } else {
      UserMissing(db, db', users, entries, i);
    }
  }

  lemma PostedFacts(db: Db, nextId: nat, posting: Posting)
    requires WalletsUnique(db.accounts) && CacheOk(db) && JournalOk(db, nextId)
    requires Balanced(posting.entries) && Fits(db.accounts, posting.entries) && !KeyUsed(db.journal, posting.key)
    requires forall k | 0 <= k < |posting.entries| :: EntryOk(db.accounts, posting.entries[k])
    requires posting.id < nextId && forall i | 0 <= i < |db.journal| :: db.journal[i].id != posting.id
    ensures var db' := Apply(db, Posted(posting));
      && ApplyAll(db, [Posted(posting)]) == Some(db') && Grows(db, db')
      && WalletsUnique(db'.accounts) && CacheOk(db') && JournalOk(db', nextId)
      && db'.accounts.Keys == db.accounts.Keys
  {
    assert CanApply(db, Posted(posting));
    Preservation.PostKeepsTables(db, nextId, posting);
    assert [Posted(posting)][..0] == [];
  }

  class Database {
    const users: map<string, User>
    var accounts: map<AccountId, Account>
    var journal: seq<Posting>
    var nextAccount: nat
    var nextPosting: nat
    var faults: seq<Fault>
    ghost var begun: nat              // transactions begun
    ghost var endings: seq<Attempt>   // how they ended
    ghost var stray: nat              // failed statements outside transactions

    ghost function Tables(): Db
      reads this
    {
      Db(accounts, journal)
    }

    ghost predicate Valid()
      reads this
    {
      && WalletsUnique(accounts) && CacheOk(Tables()) && JournalOk(Tables(), nextPosting)
      && forall x | x in accounts :: x < nextAccount
    }

    /** The fate of the next statement; past the script, statements succeed. */
    method Statement() returns (f: Fault)
      modifies this`faults
      ensures old(faults) == [] ==> f == NoFault && faults == []
      ensures old(faults) != [] ==> f == old(faults)[0] && faults == old(faults)[1..]
      ensures MayRetry(faults) || (f != NoFault && f.err == Retryable) ==> MayRetry(old(faults))
      ensures OnlyRetryable(old(faults)) ==> OnlyRetryable(faults) && f in {NoFault, Fails(Retryable)}
    {
      if faults == [] {
        f := NoFault;
      } else {
        ghost var script := faults;
        f, faults := faults[0], faults[1..];
        if k :| 0 <= k < |faults| && faults[k] != NoFault && faults[k].err == Retryable {
          assert script[k + 1] == faults[k];
        }
      }
    }

    /** A statement outside any transaction. */
    method Query() returns (f: Fault)
      modifies this`faults, this`stray
      ensures old(faults) == [] ==> f == NoFault && faults == []
      ensures stray == if f == NoFault then old(stray) else old(stray) + 1
      ensures MayRetry(faults) || (f != NoFault && f.err == Retryable) ==> MayRetry(old(faults))
      ensures OnlyRetryable(old(faults)) ==> OnlyRetryable(faults)
    {
      f := Statement();
      if f != NoFault { stray := stray + 1; }
    }

    /** SELECT id ... WHERE code: None when the statement fails or finds nothing. */
    method SystemAccountId(code: string) returns (id: Option<AccountId>)
      modifies this`faults, this`stray
      ensures id.Some? ==> id.value in accounts && accounts[id.value].System? && accounts[id.value].code == code
      ensures id.None? && stray == old(stray) ==>
        forall x | x in accounts && accounts[x].System? :: accounts[x].code != code
      ensures old(faults) == [] ==> faults == [] && stray == old(stray)
      ensures stray >= old(stray) && (OnlyRetryable(old(faults)) ==> OnlyRetryable(faults))
      ensures MayRetry(faults) ==> MayRetry(old(faults))
    {
      var f := Query();
      if f != NoFault {
        return None;
      }
      if x :| x in accounts && accounts[x].System? && accounts[x].code == code {
        return Some(x);
      }
      return None;
    }

    method SelectWallet(user: string, currency: string) returns (f: Fault, id: Option<AccountId>)
      modifies this`faults, this`stray
      ensures id.Some? ==> f == NoFault && id.value in accounts && IsWallet(accounts[id.value], user, currency)
      ensures id.None? && f == NoFault ==> !HasWallet(accounts, user, currency)
      ensures stray == old(stray) ==> f == NoFault
      ensures old(faults) == [] ==> faults == [] && stray == old(stray)
      ensures stray >= old(stray) && (OnlyRetryable(old(faults)) ==> OnlyRetryable(faults))
      ensures MayRetry(faults) ==> MayRetry(old(faults))
    {
      f := Query();
      if f != NoFault {
        return f, None;
      }
      if x :| x in accounts && IsWallet(accounts[x], user, currency) {
        return f, Some(x);
      }
      return f, None;
    }

    /** INSERT of a wallet with balance zero; it commits on its own. The foreign key
        refuses an unknown user. */
    method InsertWallet(user: string, currency: string) returns (f: Fault, id: AccountId, ghost evs: seq<Event>)
      requires Valid() && !HasWallet(accounts, user, currency)
      modifies this`accounts, this`nextAccount, this`faults, this`stray
      ensures Valid() && Grows(old(Tables()), Tables()) && NewOwnersKnown(old(Tables()), Tables(), users)
      ensures evs == (if f.Fails? then [] else [Provisioned(id, user, currency)])
      ensures ApplyAll(old(Tables()), evs) == Some(Tables())
      ensures !f.Fails? ==> id in accounts && IsWallet(accounts[id], user, currency)
      ensures user !in users ==> f.Fails?
      ensures stray == old(stray) ==> f == if user in users then NoFault else Fails(Other)
      ensures old(faults) == [] ==> faults == [] && stray == old(stray)
      ensures stray >= old(stray) && (OnlyRetryable(old(faults)) ==> OnlyRetryable(faults))
      ensures MayRetry(faults) ==> MayRetry(old(faults))
    {
      id, evs := nextAccount, [];
      f := Query();
      if user !in users && !f.Fails? {
        f := Fails(Other);
      }
      if !f.Fails? {
        Preservation.ProvisionKeepsTables(Tables(), nextPosting, id, user, currency);
        evs := [Provisioned(id, user, currency)];
        assert evs[..0] == [];
        accounts := accounts[id := Wallet(user, currency, 0)];
        nextAccount := nextAccount + 1;
      }
    }

    /** Look a wallet up, inserting it when absent; what was inserted stays even if the
        posting later fails. */
    method UserWalletId(user: string, currency: string) returns (id: Option<AccountId>, ghost evs: seq<Event>)
      requires Valid()
      modifies this`accounts, this`nextAccount, this`faults, this`stray
      ensures Valid() && Grows(old(Tables()), Tables()) && NewOwnersKnown(old(Tables()), Tables(), users)
      ensures evs == [] || exists x :: evs == [Provisioned(x, user, currency)]
      ensures ApplyAll(old(Tables()), evs) == Some(Tables())
      ensures id.Some? ==> id.value in accounts && IsWallet(accounts[id.value], user, currency)
      ensures stray == old(stray) && id.None? ==> !HasWallet(accounts, user, currency) && user !in users
      ensures old(faults) == [] ==> faults == [] && stray == old(stray)
      ensures stray >= old(stray) && (OnlyRetryable(old(faults)) ==> OnlyRetryable(faults))
      ensures MayRetry(faults) ==> MayRetry(old(faults))
    {
      var f, found := SelectWallet(user, currency);
      if f != NoFault || found.Some? {
        return found, [];
      }
      var x;
      f, x, evs := InsertWallet(user, currency);
      if f == NoFault {
        return Some(x), evs;
      }
      if f.err != Unique {
        return None, evs;
      }
      // Reported as a lost race: look the wallet up again.
      f, found := SelectWallet(user, currency);
      return found, evs;
    }

    /** The account an entry names. */
    method ResolveAccount(entry: EntryInput) returns (id: Option<AccountId>, ghost evs: seq<Event>)
      requires Valid()
      modifies this`accounts, this`nextAccount, this`faults, this`stray
      ensures Valid() && Grows(old(Tables()), Tables()) && NewOwnersKnown(old(Tables()), Tables(), users)
      ensures NoPostings(evs) && EntryOutcome(old(Tables()), entry, id, evs, Tables())
      ensures stray == old(stray) && id.None? ==> Unresolvable(Tables(), users, entry)
      ensures old(faults) == [] ==> faults == [] && stray == old(stray)
      ensures stray >= old(stray) && (OnlyRetryable(old(faults)) ==> OnlyRetryable(faults))
      ensures MayRetry(faults) ==> MayRetry(old(faults))
    {
      if entry.account.IsSystem() {
        id := SystemAccountId(entry.account.systemCode);
        evs := [];
      } else {
        id, evs := UserWalletId(entry.account.userId, entry.currency);
      }
    }

    /** The next entry's account, continuing the run of the call's process. */
    method ResolveNth(entry: EntryInput, ghost call: Caller, ghost ids: seq<AccountId>, ghost db0: Db,
                      ghost earlier: seq<Event>)
      returns (id: Option<AccountId>, ghost evs: seq<Event>, ghost p: Proc)
      requires Valid() && ResolvedSoFar(call, ids, db0, Tables(), nextPosting, users, earlier)
      requires |ids| < |call.Entries()| && entry == call.Entries()[|ids|]
      modifies this`accounts, this`nextAccount, this`faults, this`stray
      ensures Valid() && Grows(db0, Tables()) && NoPostings(evs) && ApplyAll(db0, evs) == Some(Tables())
      ensures id.Some? ==>
        && ResolvedSoFar(call, ids + [id.value], db0, Tables(), nextPosting, users, evs)
        && WalletIds(call.Entries()[..|ids| + 1], ids + [id.value])
           == WalletIds(call.Entries()[..|ids|], ids) + if entry.account.IsSystem() then {} else {id.value}
      ensures id.None? ==>
        && p.pc.Done? && p.outcome == Failure
        && Ran(Alone(call, Calling(call, []), db0, nextPosting), Alone(call, p, Tables(), nextPosting), evs)
      ensures stray == old(stray) && id.None? ==> Unresolvable(Tables(), users, entry)
      ensures old(faults) == [] ==> faults == [] && stray == old(stray)
      ensures stray >= old(stray) && (OnlyRetryable(old(faults)) ==> OnlyRetryable(faults))
      ensures MayRetry(faults) ==> MayRetry(old(faults))
    {
      ghost var db := Tables();
      id, evs := ResolveAccount(entry);
      ResolveNext(call, ids, db0, db, Tables(), nextPosting, users, id, earlier, evs);
      evs, p := earlier + evs, AfterEntry(Calling(call, ids), id);
    }

    /** One account id per entry, and the set of wallet ids to lock; p is the call's
        process afterwards. */
    method ResolveAccounts(input: PostingInput, ghost call: Caller)
      returns (ok: bool, ids: seq<AccountId>, locks: set<AccountId>, ghost evs: seq<Event>, ghost p: Proc)
      requires Valid() && |input.entries| > 0 && call.Input() == input
      modifies this`accounts, this`nextAccount, this`faults, this`stray
      ensures Valid() && Grows(old(Tables()), Tables())
      ensures NoPostings(evs) && ApplyAll(old(Tables()), evs) == Some(Tables())
      ensures ok ==>
        && |ids| == |input.entries| && locks == WalletIds(input.entries, ids)
        && ResolvedSoFar(call, ids, old(Tables()), Tables(), nextPosting, users, evs)
      ensures Ran(Alone(call, Calling(call, []), old(Tables()), nextPosting),
                  Alone(call, p, Tables(), nextPosting), evs)
      ensures if ok then p == Calling(call, ids) else p.pc.Done? && p.outcome == Failure
      ensures stray == old(stray) && !ok ==>
        exists i :: 0 <= i < |input.entries| && Unresolvable(Tables(), users, input.entries[i])
      ensures old(faults) == [] ==> faults == [] && stray == old(stray)
      ensures stray >= old(stray) && (OnlyRetryable(old(faults)) ==> OnlyRetryable(faults))
      ensures MayRetry(faults) ==> MayRetry(old(faults))
    {
      ids, locks, evs, p := [], {}, [], Calling(call, []);
      ghost var before := Tables();
      NoneResolved(call, before, nextPosting, users);
      for i := 0 to |input.entries|
        invariant Valid() && ResolvedSoFar(call, ids, before, Tables(), nextPosting, users, evs)
        invariant |ids| == i && locks == WalletIds(input.entries[..i], ids)
        invariant old(faults) == [] ==> faults == [] && stray == old(stray)
        invariant stray >= old(stray) && (OnlyRetryable(old(faults)) ==> OnlyRetryable(faults))
        invariant MayRetry(faults) ==> MayRetry(old(faults))
      {
        var id;
        id, evs, p := ResolveNth(input.entries[i], call, ids, before, evs);
        if id.None? {
          return false, ids, locks, evs, p;
        }
        if !input.entries[i].account.IsSystem() {
          locks := locks + {id.value};
        }
        ids := ids + [id.value];
      }
      assert input.entries[..|input.entries|] == input.entries;
      ok, p := true, Calling(call, ids);
    }

    /** Insert the entry rows; they stay invisible until the commit. */
    method InsertEntries(entries: seq<EntryInput>, ids: seq<AccountId>)
      returns (err: Option<Error>, rows: seq<JournalEntry>)
      requires |ids| == |entries|
      modifies this`faults
      ensures err.None? ==> rows == Resolved(entries, ids)
      ensures old(faults) == [] ==> faults == [] && err.None?
      ensures OnlyRetryable(old(faults)) ==> OnlyRetryable(faults) && err in {None, Some(Retryable)}
      ensures MayRetry(faults) || err == Some(Retryable) ==> MayRetry(old(faults))
    {
      rows := [];
      for i := 0 to |entries|
        invariant rows == Resolved(entries, ids)[..i]
        invariant old(faults) == [] ==> faults == []
        invariant OnlyRetryable(old(faults)) ==> OnlyRetryable(faults)
        invariant MayRetry(faults) ==> MayRetry(old(faults))
      {
        var f := Statement();
        if f != NoFault { return Some(f.err), rows; }
        var entry := entries[i];
        rows := rows + [JournalEntry(ids[i], entry.direction, entry.amountMinor, entry.currency)];
      }
      err := None;
    }

    /** One relative cache update per wallet, in any order; bigint addition fails
        outside its range. */
    method UpdateCaches(deltas: map<AccountId, int64>) returns (err: Option<Error>, buffer: map<AccountId, int>)
      requires forall x | x in deltas :: x in accounts && accounts[x].Wallet?
      modifies this`faults
      ensures err.None? ==> buffer.Keys == deltas.Keys && forall x | x in buffer ::
                buffer[x] == accounts[x].cached + deltas[x] && InRange(buffer[x])
      ensures old(faults) == [] ==> faults == []
      ensures old(faults) == [] && (forall x | x in deltas :: InRange(accounts[x].cached + deltas[x])) ==> err.None?
      ensures old(faults) == [] && err.Some? ==> err.value == Other
      ensures OnlyRetryable(old(faults)) ==> OnlyRetryable(faults) && err in {None, Some(Retryable), Some(Other)}
      ensures OnlyRetryable(old(faults)) && (forall x | x in deltas :: InRange(accounts[x].cached + deltas[x])) ==>
        err != Some(Other)
      ensures MayRetry(faults) || err == Some(Retryable) ==> MayRetry(old(faults))
    {
      buffer := map[];
      var rest := deltas.Keys;
      while rest != {}
        invariant rest <= deltas.Keys && buffer.Keys == deltas.Keys - rest
        invariant forall x | x in buffer :: buffer[x] == accounts[x].cached + deltas[x] && InRange(buffer[x])
        invariant old(faults) == [] ==> faults == []
        invariant OnlyRetryable(old(faults)) ==> OnlyRetryable(faults)
        invariant MayRetry(faults) ==> MayRetry(old(faults))
      {
        var id :| id in rest;
        var f := Statement();
        if f != NoFault { return Some(f.err), buffer; }
        var v := accounts[id].cached + deltas[id];
        if !InRange(v) { return Some(Other), buffer; }
        buffer := buffer[id := v];
        rest := rest - {id};
      }
      err := None;
    }

    /** COMMIT: the deferred trigger, then all writes at once. */
    method CommitPosting(posting: Posting, buffer: map<AccountId, int>) returns (a: Attempt, ghost evs: seq<Event>)
      requires Valid() && !KeyUsed(journal, posting.key) && posting.id < nextPosting
      requires forall i | 0 <= i < |journal| :: journal[i].id != posting.id
      requires forall k | 0 <= k < |posting.entries| :: EntryOk(accounts, posting.entries[k])
      requires Installed(accounts, buffer) == PostAccounts(accounts, posting.entries) && Fits(accounts, posting.entries)
      modifies this`accounts, this`journal, this`faults
      ensures Valid()
      ensures ApplyAll(old(Tables()), evs) == Some(Tables()) && Grows(old(Tables()), Tables())
      ensures evs == [] || evs == [Posted(posting)]
      ensures a.Committed? ==> evs != [] && a.id == posting.id
      ensures MayRetry(faults) || a == Errored(Retryable) ==> MayRetry(old(faults))
      ensures old(faults) == [] ==>
        faults == [] && a == if Balanced(posting.entries) then Committed(posting.id) else Errored(Other)
      ensures OnlyRetryable(old(faults)) ==>
        && OnlyRetryable(faults) && (a.Errored? ==> evs == [])
        && (a == Errored(Other) ==> !Balanced(posting.entries)) && a != Errored(Unique)
    {
      evs := [];
      var f := Statement();
      if f.Fails? { return Errored(f.err), []; }
      TriggerIsBalance(posting.entries);
      if !TriggerPasses(posting.entries) { return Errored(if f == NoFault then Other else f.err), []; }
      PostedFacts(Tables(), nextPosting, posting);
      evs := [Posted(posting)];
      accounts, journal := Installed(accounts, buffer), journal + [posting];
      a := if f == NoFault then Committed(posting.id) else Errored(f.err);
    }

    /** BEGIN, and SELECT ... FOR UPDATE of the wallets, if there are any. */
    method BeginAndLock(locks: set<AccountId>) returns (f: Fault)
      modifies this`faults
      ensures old(faults) == [] ==> f == NoFault && faults == []
      ensures MayRetry(faults) || (f != NoFault && f.err == Retryable) ==> MayRetry(old(faults))
      ensures OnlyRetryable(old(faults)) ==> OnlyRetryable(faults) && f in {NoFault, Fails(Retryable)}
    {
      f := Statement();
      if f == NoFault && locks != {} {
        f := Statement();
      }
    }

    /** Begin, lock, insert the posting row: the id drawn, or the error. */
    method OpenPosting(key: string, locks: set<AccountId>) returns (err: Option<Error>, id: nat)
      requires Valid()
      modifies this`faults, this`nextPosting, this`begun
      ensures begun == old(begun) + 1
      ensures nextPosting == if err.None? then old(nextPosting) + 1 else old(nextPosting)
      ensures Valid() && forall i | 0 <= i < |journal| :: journal[i].id < old(nextPosting)
      ensures err.None? ==> id == old(nextPosting) && !KeyUsed(journal, key)
      ensures old(faults) == [] ==> faults == []
      ensures old(faults) == [] ==> if KeyUsed(journal, key) then err == Some(Unique) else err.None?
      ensures OnlyRetryable(old(faults)) ==>
        OnlyRetryable(faults) && err != Some(Other) && (err == Some(Unique) ==> KeyUsed(journal, key))
      ensures MayRetry(faults) || err == Some(Retryable) ==> MayRetry(old(faults))
    {
      id, begun := nextPosting, begun + 1;
      var f := BeginAndLock(locks);
      if f != NoFault { return Some(f.err), id; }
      f := Statement();
      if f != NoFault { return Some(f.err), id; }
      if KeyUsed(journal, key) { return Some(Unique), id; }
      nextPosting := nextPosting + 1;
      err := None;
    }

    /** The rest of a transaction once its posting row is inserted under a fresh id. */
    method WritePosting(input: PostingInput, ids: seq<AccountId>, ghost locks: set<AccountId>,
                        deltas: map<AccountId, int64>, id: nat, at: nat)
      returns (a: Attempt, ghost evs: seq<Event>)
      requires Valid() && Prepared(Tables(), input, ids, locks, deltas) && !KeyUsed(journal, input.key)
      requires id < nextPosting && forall i | 0 <= i < |journal| :: journal[i].id != id
      modifies this`accounts, this`journal, this`faults
      ensures Valid() && ApplyAll(old(Tables()), evs) == Some(Tables()) && Grows(old(Tables()), Tables())
      ensures evs == [] || evs == [Posted(Posting(id, input.key, Resolved(input.entries, ids), at))]
      ensures a.Committed? ==> evs != [] && a.id == id
      ensures old(faults) == [] ==> faults == []
      ensures OnlyRetryable(old(faults)) ==>
        && OnlyRetryable(faults) && (a.Errored? ==> evs == []) && a != Errored(Unique)
        && (a == Errored(Other) ==> !PostsCleanly(old(Tables()), Resolved(input.entries, ids)))
      ensures MayRetry(faults) || a == Errored(Retryable) ==> MayRetry(old(faults))
    {
      NamedWallets(Tables(), input.entries, ids);
      var err, rows := InsertEntries(input.entries, ids);
      if err.Some? { return Errored(err.value), []; }
      var buffer;
      err, buffer := UpdateCaches(deltas);
      if err.Some? { return Errored(err.value), []; }
      BufferIsPosting(Tables(), input.entries, ids, buffer);
      RowsOk(Tables(), input.entries, ids);
      a, evs := CommitPosting(Posting(id, input.key, rows, at), buffer);
    }

    /** One transaction. It either leaves the tables alone or installs the whole
        posting; a reported commit installed it, a reported error may have too. */
    method PostOnce(input: PostingInput, ids: seq<AccountId>, locks: set<AccountId>, deltas: map<AccountId, int64>,
                    at: nat)
      returns (a: Attempt, ghost evs: seq<Event>)
      requires Valid() && Prepared(Tables(), input, ids, locks, deltas)
      modifies this`accounts, this`journal, this`nextPosting, this`faults, this`begun
      ensures Valid() && ApplyAll(old(Tables()), evs) == Some(Tables()) && Grows(old(Tables()), Tables())
      ensures evs == [] || evs == [Posted(Posting(old(nextPosting), input.key, Resolved(input.entries, ids), at))]
      ensures begun == old(begun) + 1
      ensures nextPosting == old(nextPosting) || nextPosting == old(nextPosting) + 1
      ensures evs != [] ==> nextPosting != old(nextPosting)
      ensures nextPosting != old(nextPosting) ==> !KeyUsed(old(journal), input.key)
      ensures a.Committed? ==> evs != [] && a.id == old(nextPosting)
      ensures old(faults) == [] ==> faults == []
      ensures OnlyRetryable(old(faults)) ==>
        && OnlyRetryable(faults) && (a.Errored? ==> evs == [])
        && (a == Errored(Unique) ==> KeyUsed(old(journal), input.key))
        && (a == Errored(Other) ==> !KeyUsed(old(journal), input.key)
                                    && !PostsCleanly(old(Tables()), Resolved(input.entries, ids)))
      ensures MayRetry(faults) || a == Errored(Retryable) ==> MayRetry(old(faults))
    {
      var err, id := OpenPosting(input.key, locks);
      if err.Some? { return Errored(err.value), []; }
      a, evs := WritePosting(input, ids, locks, deltas, id, at);
    }

    /** A transaction, recorded among the endings, and what the journal then holds. */
    method Transaction(input: PostingInput, ids: seq<AccountId>, locks: set<AccountId>,
                       deltas: map<AccountId, int64>, at: nat)
      returns (a: Attempt, ghost posted: bool)
      requires Valid() && Prepared(Tables(), input, ids, locks, deltas)
      modifies this`accounts, this`journal, this`nextPosting, this`faults, this`begun, this`endings
      ensures Valid() && Grows(old(Tables()), Tables())
      ensures begun == old(begun) + 1 && endings == old(endings) + [a]
      ensures posted ==> PostsCleanly(old(Tables()), Resolved(input.entries, ids))
      ensures Tables() == if posted
        then Apply(old(Tables()), Posted(Posting(old(nextPosting), input.key, Resolved(input.entries, ids), at)))
        else old(Tables())
      ensures posted ==> IsPosting(journal, old(nextPosting), input.key) && KeyUsed(journal, input.key)
      ensures nextPosting == old(nextPosting) || nextPosting == old(nextPosting) + 1
      ensures posted ==> nextPosting != old(nextPosting)
      ensures nextPosting != old(nextPosting) ==> !KeyUsed(old(journal), input.key)
      ensures a.Committed? ==> posted && a.id == old(nextPosting)
      ensures old(faults) == [] ==> faults == []
      ensures OnlyRetryable(old(faults)) ==>
        && OnlyRetryable(faults) && (a.Errored? ==> !posted)
        && (a == Errored(Unique) ==> KeyUsed(old(journal), input.key))
        && (a == Errored(Other) ==> !KeyUsed(old(journal), input.key)
                                    && !PostsCleanly(old(Tables()), Resolved(input.entries, ids)))
      ensures MayRetry(faults) || a == Errored(Retryable) ==> MayRetry(old(faults))
    {
      ghost var before, evs := Tables(), [];
      ghost var posting := Posting(nextPosting, input.key, Resolved(input.entries, ids), at);
      a, evs := PostOnce(input, ids, locks, deltas, at);
      endings := endings + [a];
      RoundPosts(before, Tables(), evs, posting);
      posted := evs != [];
    }

    /** After a unique violation: the posting already recorded under the key. */
    method IdempotentReplay(err: Error, key: string) returns (id: Option<nat>)
      modifies this`faults, this`stray
      ensures id.Some? ==> err == Unique && IsPosting(journal, id.value, key)
      ensures err != Unique ==> id.None? && faults == old(faults) && stray == old(stray)
      ensures stray == old(stray) && err == Unique && KeyUsed(journal, key) ==> id.Some?
      ensures old(faults) == [] ==> faults == [] && stray == old(stray)
      ensures stray >= old(stray) && (OnlyRetryable(old(faults)) ==> OnlyRetryable(faults))
      ensures MayRetry(faults) ==> MayRetry(old(faults))
    {
      if err != Unique { return None; }
      var f := Query();
      if f != NoFault { return None; }
      if i :| 0 <= i < |journal| && journal[i].key == key {
        return Some(journal[i].id);
      }
      return None;
    }

    /** What to answer after a transaction; none when it is to be retried. */
    method AnswerAttempt(a: Attempt, key: string) returns (r: Option<Outcome>)
      requires a.Committed? ==> IsPosting(journal, a.id, key)
      modifies this`faults, this`stray
      ensures r.None? <==> a == Errored(Retryable)
      ensures r.Some? ==> AnswersAttempt(r.value, a)
      ensures r.Some? && r.value.Success? ==> IsPosting(journal, r.value.id, key)
      ensures r.Some? && r.value.Success? ==> (r.value.replayed <==> a.Errored?)
      ensures stray == old(stray) && a == Errored(Unique) && KeyUsed(journal, key) ==> r.value.Success?
      ensures MayRetry(faults) ==> MayRetry(old(faults))
      ensures old(faults) == [] ==> faults == [] && stray == old(stray)
      ensures stray >= old(stray) && (OnlyRetryable(old(faults)) ==> OnlyRetryable(faults))
    {
      if a.Committed? {
        return Some(Success(a.id, false));
      }
      var replay := IdempotentReplay(a.err, key);
      if replay.Some? {
        return Some(Success(replay.value, true));
      }
      r := if a.err == Retryable then None else Some(Failure);
    }

    /** One round of the retry loop: round says what became of the transaction and of the
        call. Another round follows exactly when the transaction ended in a retryable
        error. */
    method AttemptRound(input: PostingInput, ids: seq<AccountId>, locks: set<AccountId>,
                        deltas: map<AccountId, int64>, at: nat)
      returns (r: Option<Outcome>, a: Attempt, ghost round: Round)
      requires Valid() && Prepared(Tables(), input, ids, locks, deltas)
      modifies this`accounts, this`journal, this`nextPosting, this`faults, this`begun, this`endings, this`stray
      ensures Valid() && Grows(old(Tables()), Tables())
      ensures begun == old(begun) + 1 && endings == old(endings) + [a] && stray >= old(stray)
      ensures var rows := Resolved(input.entries, ids);
        && round.answer == r && Possible(old(Tables()), old(nextPosting), input.key, rows, round)
        && Tables() == AfterRound(old(Tables()), Posting(old(nextPosting), input.key, rows, at), round)
        && nextPosting == if round.numbered then old(nextPosting) + 1 else old(nextPosting)
      ensures r.None? <==> a == Errored(Retryable)
      ensures r.Some? ==> AnswersAttempt(r.value, a)
      ensures r.None? || MayRetry(faults) ==> MayRetry(old(faults))
      ensures r.Some? && r.value.Success? ==> IsPosting(journal, r.value.id, input.key)
      ensures r.Some? && r.value.Success? && !r.value.replayed ==> round.posted
      ensures old(faults) == [] ==> faults == [] && stray == old(stray)
      ensures OnlyRetryable(old(faults)) && stray == old(stray) ==>
        && OnlyRetryable(faults)
        && (r.None? ==> Tables() == old(Tables()))
        && (r.Some? ==> (r.value.Failure? <==> !KeyUsed(old(journal), input.key)
                                               && !PostsCleanly(old(Tables()), Resolved(input.entries, ids))))
        && (r.Some? && r.value.Success? ==> (r.value.replayed <==> KeyUsed(old(journal), input.key)))
    {
      ghost var before, next := Tables(), nextPosting;
      ghost var posted;
      a, posted := Transaction(input, ids, locks, deltas, at);
      r := AnswerAttempt(a, input.key);
      round := Round(nextPosting != next, posted, r);
      RoundPossible(before, Tables(), Posting(next, input.key, Resolved(input.entries, ids), at), a, round);
    }

    /** A round, continuing the run of the call's process. */
    method NextAttempt(input: PostingInput, ids: seq<AccountId>, locks: set<AccountId>, deltas: map<AccountId, int64>,
                       at: nat, ghost call: Caller, ghost start: State, ghost p: Proc, ghost attempt: nat,
                       ghost evs: seq<Event>)
      returns (r: Option<Outcome>, a: Attempt, ghost p': Proc, ghost evs': seq<Event>)
      requires Valid() && Prepared(Tables(), input, ids, locks, deltas) && call.Input() == input && call.at == at
      requires attempt < MAX_RETRIES && Between(start, p, call, ids, attempt, evs, Tables(), nextPosting)
      modifies this`accounts, this`journal, this`nextPosting, this`faults, this`begun, this`endings, this`stray
      ensures Valid() && Prepared(Tables(), input, ids, locks, deltas)
      ensures begun == old(begun) + 1 && endings == old(endings) + [a] && stray >= old(stray)
      ensures if r.None? then Between(start, p', call, ids, attempt + 1, evs', Tables(), nextPosting)
              else RoundsDone(start, p', call, ids, evs', Tables(), nextPosting) && p'.pc.Done? && p'.outcome == r.value
      ensures r.None? <==> a == Errored(Retryable)
      ensures r.Some? ==> AnswersAttempt(r.value, a)
      ensures r.None? || MayRetry(faults) ==> MayRetry(old(faults))
      ensures r.Some? && r.value.Success? ==> IsPosting(journal, r.value.id, input.key)
      ensures r.Some? && r.value.Success? && !r.value.replayed ==> evs' != []
      ensures old(faults) == [] ==> faults == [] && stray == old(stray)
      ensures OnlyRetryable(old(faults)) && stray == old(stray) ==>
        && OnlyRetryable(faults)
        && (r.None? ==> Tables() == old(Tables()))
        && (r.Some? ==> (r.value.Failure? <==> !KeyUsed(old(journal), input.key)
                                               && !PostsCleanly(old(Tables()), Resolved(input.entries, ids))))
        && (r.Some? && r.value.Success? ==> (r.value.replayed <==> KeyUsed(old(journal), input.key)))
    {
      ghost var db, next := Tables(), nextPosting;
      ghost var round;
      r, a, round := AttemptRound(input, ids, locks, deltas, at);
      p', evs' := NextRound(start, p, call, ids, attempt, db, next, evs, round);
    }

    /** The retry loop: a transaction that ends in a retryable error is followed by another,
        up to eight; at most one takes effect, and a unique violation is answered from the
        journal. tries is how they end. */
    method Attempts(input: PostingInput, ids: seq<AccountId>, locks: set<AccountId>, deltas: map<AccountId, int64>,
                    at: nat, ghost call: Caller)
      returns (r: Outcome, ghost evs: seq<Event>, ghost p: Proc, ghost tries: Tries)
      requires Valid() && Prepared(Tables(), input, ids, locks, deltas) && call.Input() == input && call.at == at
      modifies this`accounts, this`journal, this`nextPosting, this`faults, this`begun, this`endings, this`stray
      ensures Valid() && ApplyAll(old(Tables()), evs) == Some(Tables()) && Grows(old(Tables()), Tables())
      ensures evs == [] || PostedOnce(evs, input, ids, at)
      ensures KeyUsed(old(journal), input.key) ==> evs == []
      ensures p.pc.Done? && p.outcome == r
      ensures Ran(Alone(call, Calling(call, ids), old(Tables()), old(nextPosting)),
                  Alone(call, p, Tables(), nextPosting), evs)
      ensures endings == old(endings) + EndingsOf(tries) && begun == old(begun) + |EndingsOf(tries)|
      ensures tries.Tried? && Retried(tries) && AnswersLast(r, tries) && stray >= old(stray)
      ensures tries.retried > 0 || tries.last == Errored(Retryable) ==> MayRetry(old(faults))
      ensures r.Success? ==> IsPosting(journal, r.id, input.key)
      ensures r.Success? && !r.replayed ==> evs != []
      ensures old(faults) == [] ==> faults == [] && stray == old(stray)
      ensures OnlyRetryable(old(faults)) && stray == old(stray) ==>
        && (r.Failure? <==> Exhausted(tries) || (!KeyUsed(old(journal), input.key)
                                                && !PostsCleanly(old(Tables()), Resolved(input.entries, ids))))
        && (r.Success? ==> (r.replayed <==> KeyUsed(old(journal), input.key)))
    {
      evs, p, tries := [], Calling(call, ids), Untried;
      r := Failure;
      ghost var start := Alone(call, p, Tables(), nextPosting);
      RanNothing(start);
      for attempt := 0 to MAX_RETRIES
        invariant Valid() && Prepared(Tables(), input, ids, locks, deltas)
        invariant Between(start, p, call, ids, attempt, evs, Tables(), nextPosting)
        invariant endings == old(endings) + Retries(attempt) && begun == old(begun) + attempt && stray >= old(stray)
        invariant attempt > 0 ==> tries == Tried(attempt - 1, Errored(Retryable))
        invariant MayRetry(faults) || attempt > 0 ==> MayRetry(old(faults))
        invariant old(faults) == [] ==> faults == [] && stray == old(stray)
        invariant OnlyRetryable(old(faults)) && stray == old(stray) ==>
          OnlyRetryable(faults) && Tables() == start.db
      {
        var answer, last;
        answer, last, p, evs := NextAttempt(input, ids, locks, deltas, at, call, start, p, attempt, evs);
        tries := Tried(attempt, last);
        if answer.Some? {
          r := answer.value;
          BetweenApplied(start, p, call, ids, evs, Tables(), nextPosting);
          return;
        }
        RetriesStep(old(endings), attempt);
      }
      RetriesStep(old(endings), 7);
      BetweenApplied(start, p, call, ids, evs, Tables(), nextPosting);
    }

    /** Post: validate, resolve, then up to eight attempts. Whatever fails, the tables
        move by wallet provisions and at most this one posting, applied whole; success
        names the posting recorded under the key. While only retryable errors inside
        transactions get in the way, it fails exactly when the input is refused or eight
        transactions were ended by such errors. `call` is any protocol call that posts
        this input: its process, from resolving on or for a bare posting from the start,
        has a run with the same events, tables and answer. */
    method Post(input: PostingInput, at: nat, ghost call: Caller)
      returns (r: Outcome, ghost evs: seq<Event>, ghost tries: Tries)
      requires Valid() && call.Input() == input && call.at == at
      modifies this
      ensures Valid() && ApplyAll(old(Tables()), evs) == Some(Tables())
      ensures Accepts(input) ==>
        Answers(Alone(call, Calling(call, []), old(Tables()), old(nextPosting)), call, r, evs, Tables(), nextPosting)
      ensures call.req.Direct? && call.now == 0 ==>
        Answers(Alone(call, NewCall(call.req), old(Tables()), old(nextPosting)), call, r, evs, Tables(), nextPosting)
      ensures AtMostOnePosting(Tables(), evs, input, at)
      ensures KeyUsed(old(journal), input.key) ==> NoPostings(evs)
      ensures r.Success? ==> IsPosting(journal, r.id, input.key)
      ensures r.Success? && !r.replayed ==> !NoPostings(evs)
      ensures !Accepts(input) ==> r == Failure && evs == []
      ensures endings == old(endings) + EndingsOf(tries) && begun == old(begun) + |EndingsOf(tries)|
      ensures Retried(tries) && AnswersLast(r, tries) && stray >= old(stray)
      ensures OnlyRetryable(old(faults)) && stray == old(stray) ==>
        && (r.Failure? <==> Rejected(old(Tables()), users, input) || Exhausted(tries))
        && (r.Success? ==> (r.replayed <==> KeyUsed(old(journal), input.key)))
      ensures old(faults) == [] ==> faults == [] && stray == old(stray) && !Exhausted(tries)
    {
      ghost var before, first := Tables(), nextPosting;
      tries := Untried;
      var invalid := Validate(input);
      if invalid.Some? {
        DirectAnswers(call, before, first, Failure, [], before, first);
        return Failure, [], Untried;
      }
      var ok, ids, locks;
      ghost var p, provisions;
      ok, ids, locks, provisions, p := ResolveAccounts(input, call);
      evs := provisions;
      if !ok {
        SomeUnresolvable(before, Tables(), users, input.entries);
        DirectAnswers(call, before, first, Failure, evs, Tables(), nextPosting);
        return Failure, evs, Untried;
      }
      ghost var resolved, next := Tables(), nextPosting;
      AllResolved(call, ids, before, resolved, nextPosting, users, provisions);
      ResolvedFacts(input, ids, before, resolved, provisions);
      var deltas := ComputeDeltas(input.entries, ids);
      ghost var ev;
      r, ev, p, tries := Attempts(input, ids, locks, deltas, at, call);
      evs := provisions + ev;
      PostFacts(call, ids, before, resolved, Tables(), first, nextPosting, r, provisions, ev, p);
      DirectAnswers(call, before, first, r, evs, Tables(), nextPosting);
    }
  }

  lemma ResolvedFacts(input: PostingInput, ids: seq<AccountId>, db: Db, db': Db, provisions: seq<Event>)
    requires WalletsUnique(db'.accounts) && Grows(db, db')
    requires NoPostings(provisions) && ApplyAll(db, provisions) == Some(db')
    requires |ids| == |input.entries| && Resolves(db', input.entries, ids)
    ensures DisjointKinds(input.entries, ids) && db'.journal == db.journal
    ensures PostsCleanly(db', Resolved(input.entries, ids)) <==> Postable(db.accounts, input.entries)
  {
    ProvisionsOnlyAdd(db, provisions);
    ResolvedKindsDisjoint(db', input.entries, ids);
    PostableIff(db, db', input.entries, ids);
  }

  lemma PostFacts(call: Caller, ids: seq<AccountId>, db: Db, resolved: Db, db': Db, next: nat, next': nat,
                  r: Outcome, provisions: seq<Event>, ev: seq<Event>, p: Proc)
    requires NoPostings(provisions) && ApplyAll(db, provisions) == Some(resolved)
    requires Resolves(resolved, call.Entries(), ids) && ApplyAll(resolved, ev) == Some(db') && Grows(resolved, db')
    requires ev == [] || PostedOnce(ev, call.Input(), ids, call.at)
    requires p.pc.Done? && p.outcome == r
    requires Ran(Alone(call, Calling(call, []), db, next), Alone(call, Calling(call, ids), resolved, next), provisions)
    requires Ran(Alone(call, Calling(call, ids), resolved, next), Alone(call, p, db', next'), ev)
    ensures ApplyAll(db, provisions + ev) == Some(db')
    ensures AtMostOnePosting(db', provisions + ev, call.Input(), call.at)
    ensures ev == [] ==> NoPostings(provisions + ev)
    ensures Answers(Alone(call, Calling(call, []), db, next), call, r, provisions + ev, db', next')
  {
    var evs := provisions + ev;
    AppendEvents(db, provisions, ev);
    Preservation.ResolvesGrows(resolved, db', call.Entries(), ids);
    RanThrough(Alone(call, Calling(call, []), db, next), Alone(call, Calling(call, ids), resolved, next),
               Alone(call, p, db', next'), provisions, ev);
    if ev != [] {
      assert evs[..|evs| - 1] == provisions && evs[|evs| - 1..] == ev;
    }
  }

  /** A process between two rounds. */
  ghost predicate Waiting(p: Proc, call: Caller, ids: seq<AccountId>, attempt: nat) {
    p.pc.Ready? && p.req == call.req && p.ids == ids && p.attempt == attempt && p.held == {}
  }

  /** The first |ids| entries are resolved, by a run of the call's process. */
  ghost predicate ResolvedSoFar(call: Caller, ids: seq<AccountId>, db0: Db, db: Db, nextId: nat,
                            users: map<string, User>, evs: seq<Event>) {
    && Grows(db0, db) && NewOwnersKnown(db0, db, users)
    && NoPostings(evs) && ApplyAll(db0, evs) == Some(db)
    && Resolves(db, call.Entries(), ids)
    && Ran(Alone(call, Calling(call, []), db0, nextId), Alone(call, Calling(call, ids), db, nextId), evs)
  }

  lemma NoneResolved(call: Caller, db: Db, nextId: nat, users: map<string, User>)
    ensures ResolvedSoFar(call, [], db, db, nextId, users, [])
  {
    RanNothing(Alone(call, Calling(call, []), db, nextId));
  }

  lemma ResolveNext(call: Caller, ids: seq<AccountId>, db0: Db, db: Db, db': Db, nextId: nat, users: map<string, User>,
                    id: Option<AccountId>, earlier: seq<Event>, evs: seq<Event>)
    requires |ids| < |call.Entries()| && ResolvedSoFar(call, ids, db0, db, nextId, users, earlier)
    requires Grows(db, db') && NewOwnersKnown(db, db', users) && NoPostings(evs)
    requires EntryOutcome(db, call.Entries()[|ids|], id, evs, db')
    ensures Grows(db0, db') && NoPostings(earlier + evs) && ApplyAll(db0, earlier + evs) == Some(db')
    ensures Ran(Alone(call, Calling(call, []), db0, nextId),
                Alone(call, AfterEntry(Calling(call, ids), id), db', nextId), earlier + evs)
    ensures id.Some? ==>
      && AfterEntry(Calling(call, ids), id) == Calling(call, ids + [id.value])
      && ResolvedSoFar(call, ids + [id.value], db0, db', nextId, users, earlier + evs)
      && WalletIds(call.Entries()[..|ids| + 1], ids + [id.value])
         == WalletIds(call.Entries()[..|ids|], ids)
            + if call.Entries()[|ids|].account.IsSystem() then {} else {id.value}
  {
    GrowsTwice(db0, db, db');
    OwnersTwice(db0, db, db', users);
    AppendEvents(db0, earlier, evs);
    Preservation.ResolvesGrows(db, db', call.Entries(), ids);
    EntryAlone(call, ids, db, nextId, id, evs, db');
    RanThrough(Alone(call, Calling(call, []), db0, nextId), Alone(call, Calling(call, ids), db, nextId),
               Alone(call, AfterEntry(Calling(call, ids), id), db', nextId), earlier, evs);
    if id.Some? {
      ResolvesStep(db', call.Entries(), ids, id.value);
      LocksStep(call.Entries(), ids, id.value, |ids|);
    }
  }

  lemma OwnersTwice(a: Db, b: Db, c: Db, users: map<string, User>)
    requires Grows(b, c) && NewOwnersKnown(a, b, users) && NewOwnersKnown(b, c, users)
    ensures NewOwnersKnown(a, c, users)
  {
  }

  lemma AllResolved(call: Caller, ids: seq<AccountId>, db0: Db, db: Db, nextId: nat, users: map<string, User>,
                    evs: seq<Event>)
    requires |ids| == |call.Entries()| && ResolvedSoFar(call, ids, db0, db, nextId, users, evs)
    ensures Resolvable(db0.accounts, users, call.Entries())
  {
    SystemPresent(db0, db, call.Entries(), ids);
    UsersPresent(db0, db, users, call.Entries(), ids);
  }

  /** What the rounds so far have done to the tables. */
  ghost predicate RoundsDone(start: State, p: Proc, call: Caller, ids: seq<AccountId>, evs: seq<Event>, db: Db,
                             nextId: nat)
  {
    && Ran(start, Alone(call, p, db, nextId), evs)
    && (evs == [] || (PostedOnce(evs, call.Input(), ids, call.at) && KeyUsed(db.journal, call.Input().key)))
    && (evs == [] ==> db == start.db)
    && |ids| == |call.Entries()| && Resolves(db, call.Entries(), ids)
  }

  ghost predicate Between(start: State, p: Proc, call: Caller, ids: seq<AccountId>, attempt: nat,
                          evs: seq<Event>, db: Db, nextId: nat) {
    && RoundsDone(start, p, call, ids, evs, db, nextId)
    && if attempt < MAX_RETRIES then Waiting(p, call, ids, attempt) else p.pc.Done? && p.outcome == Failure
  }

  function RoundPosting(call: Caller, ids: seq<AccountId>, nextId: nat): Posting
    requires |ids| == |call.Entries()|
  {
    Posting(nextId, call.Input().key, Resolved(call.Entries(), ids), call.at)
  }

  lemma RoundOnTables(call: Caller, ids: seq<AccountId>, db: Db, nextId: nat, round: Round)
    requires |ids| == |call.Entries()| && Resolves(db, call.Entries(), ids)
    requires Possible(db, nextId, call.Input().key, Resolved(call.Entries(), ids), round)
    ensures var db' := AfterRound(db, RoundPosting(call, ids, nextId), round);
      && Resolves(db', call.Entries(), ids)
      && (round.posted ==> KeyUsed(db'.journal, call.Input().key) && !KeyUsed(db.journal, call.Input().key))
      && (!round.posted ==> db' == db)
  {
    var db' := AfterRound(db, RoundPosting(call, ids, nextId), round);
    forall i | 0 <= i < |ids| ensures RowIs(db', ids[i], call.Entries()[i]) {
      assert RowIs(db, ids[i], call.Entries()[i]);
    }
    if round.posted { assert db'.journal[|db.journal|].key == call.Input().key; }
  }

  lemma RunRound(p: Proc, call: Caller, ids: seq<AccountId>, attempt: nat, db: Db, nextId: nat, round: Round)
    returns (q: Proc)
    requires WalletsUnique(db.accounts) && CacheOk(db) && JournalOk(db, nextId) && Accepts(call.Input())
    requires |ids| == |call.Entries()| && Resolves(db, call.Entries(), ids)
    requires attempt < MAX_RETRIES && Waiting(p, call, ids, attempt)
    requires Possible(db, nextId, call.Input().key, Resolved(call.Entries(), ids), round)
    ensures var posting := RoundPosting(call, ids, nextId);
      Ran(Alone(call, p, db, nextId),
          Alone(call, q, AfterRound(db, posting, round), if round.numbered then nextId + 1 else nextId),
          if round.posted then [Posted(posting)] else [])
    ensures Settled(p, q, round.answer)
  {
    AloneInv(call, p, db, nextId);
    var t := RoundRun(Alone(call, p, db, nextId), 0, call.at, round);
    q := t.procs[0];
    assert t.procs == [q];
  }

  lemma NextRound(start: State, p: Proc, call: Caller, ids: seq<AccountId>, attempt: nat,
                  db: Db, nextId: nat, evs: seq<Event>, round: Round)
    returns (q: Proc, evs': seq<Event>)
    requires WalletsUnique(db.accounts) && CacheOk(db) && JournalOk(db, nextId) && Accepts(call.Input())
    requires attempt < MAX_RETRIES && Between(start, p, call, ids, attempt, evs, db, nextId)
    requires Possible(db, nextId, call.Input().key, Resolved(call.Entries(), ids), round)
    ensures var db' := AfterRound(db, RoundPosting(call, ids, nextId), round);
      var next := if round.numbered then nextId + 1 else nextId;
      match round.answer
      case Some(o) => RoundsDone(start, q, call, ids, evs', db', next) && q.pc.Done? && q.outcome == o
      case None => Between(start, q, call, ids, attempt + 1, evs', db', next)
  {
    var posting := RoundPosting(call, ids, nextId);
    var ev := if round.posted then [Posted(posting)] else [];
    q := RunRound(p, call, ids, attempt, db, nextId, round);
    RoundOnTables(call, ids, db, nextId, round);
    RanThrough(start, Alone(call, p, db, nextId),
               Alone(call, q, AfterRound(db, posting, round), if round.numbered then nextId + 1 else nextId), evs, ev);
    evs' := evs + ev;
    assert evs + [] == evs && [] + ev == ev;
  }

  lemma BetweenApplied(start: State, p: Proc, call: Caller, ids: seq<AccountId>, evs: seq<Event>, db: Db, nextId: nat)
    requires start == Alone(call, Calling(call, ids), start.db, start.nextId) && Accepts(call.Input())
    requires |ids| == |call.Entries()| && Resolves(start.db, call.Entries(), ids)
    requires WalletsUnique(start.db.accounts) && CacheOk(start.db) && JournalOk(start.db, start.nextId)
    requires RoundsDone(start, p, call, ids, evs, db, nextId)
    ensures ApplyAll(start.db, evs) == Some(db) && Grows(start.db, db)
  {
    AloneInv(call, Calling(call, ids), start.db, start.nextId);
    RanKeepsInv(start, Alone(call, p, db, nextId), evs);
    EventsGrow(start.db, evs);
  }

  lemma {:induction false} EventsGrow(db: Db, evs: seq<Event>)
    requires ApplyAll(db, evs).Some?
    ensures Grows(db, ApplyAll(db, evs).value)
  {
    if evs != [] {
      EventsGrow(db, evs[..|evs| - 1]);
    }
  }

  /** A single posting event: the whole entry list, on the resolved accounts. */
  ghost predicate PostedOnce(evs: seq<Event>, input: PostingInput, ids: seq<AccountId>, at: int) {
    && |ids| == |input.entries| && |evs| == 1 && evs[0].Posted?
    && evs[0].posting == Posting(evs[0].posting.id, input.key, Resolved(input.entries, ids), at)
  }

  ghost predicate AtMostOnePosting(db: Db, evs: seq<Event>, input: PostingInput, at: int) {
    NoPostings(evs) ||
    (&& evs != [] && NoPostings(evs[..|evs| - 1])
     && exists ids :: Resolves(db, input.entries, ids) && PostedOnce(evs[|evs| - 1..], input, ids, at))
  }

  lemma ResolvedKindsDisjoint(db: Db, entries: seq<EntryInput>, ids: seq<AccountId>)
    requires |ids| == |entries| && Resolves(db, entries, ids)
    ensures DisjointKinds(entries, ids)
  {
    forall i, j | 0 <= i < |entries| && 0 <= j < |entries|
      ensures entries[i].account.IsSystem() && !entries[j].account.IsSystem() ==> ids[i] != ids[j]
    {
      assert RowIs(db, ids[i], entries[i]) && RowIs(db, ids[j], entries[j]);
    }
  }

  /** A posting event leaves its key in the journal. */
  /** The tables after a transaction that posted or not. */
  lemma RoundPosts(db: Db, db': Db, evs: seq<Event>, posting: Posting)
    requires ApplyAll(db, evs) == Some(db') && (evs == [] || evs == [Posted(posting)])
    ensures evs == [] ==> db' == db
    ensures evs != [] ==> db' == Apply(db, Posted(posting)) && KeyUsed(db'.journal, posting.key)
    ensures evs != [] ==> IsPosting(db'.journal, posting.id, posting.key)
    ensures evs != [] ==> Balanced(posting.entries) && Fits(db.accounts, posting.entries)
  {
    if evs != [] {
      assert evs[..0] == [] && evs[0] == Posted(posting);
      assert db'.journal[|db.journal|] == posting;
    }
  }

  lemma RoundPossible(db: Db, db': Db, posting: Posting, a: Attempt, round: Round)
    requires round.posted ==> round.numbered && PostsCleanly(db, posting.entries)
    requires db' == AfterRound(db, posting, round)
    requires round.numbered ==> !KeyUsed(db.journal, posting.key)
    requires a.Committed? ==> round.posted && a.id == posting.id
    requires round.answer.Some? ==> AnswersAttempt(round.answer.value, a)
    requires round.answer.Some? && round.answer.value.Success? ==>
      && IsPosting(db'.journal, round.answer.value.id, posting.key)
      && (round.answer.value.replayed <==> a.Errored?)
    ensures Possible(db, posting.id, posting.key, posting.entries, round)
  {
    if round.posted {
      assert db'.journal == db.journal + [posting];
    }
  }

  lemma BufferIsPosting(db: Db, entries: seq<EntryInput>, ids: seq<AccountId>, buffer: map<AccountId, int>)
    requires CacheOk(db) && |ids| == |entries| && Resolves(db, entries, ids)
    requires buffer.Keys == WalletIds(entries, ids)
    requires forall x | x in buffer :: x in db.accounts && db.accounts[x].Wallet?
               && buffer[x] == db.accounts[x].cached + Delta(Resolved(entries, ids), x) && InRange(buffer[x])
    ensures Installed(db.accounts, buffer) == PostAccounts(db.accounts, Resolved(entries, ids))
    ensures Fits(db.accounts, Resolved(entries, ids))
  {
    var rows := Resolved(entries, ids);
    var installed, posted := Installed(db.accounts, buffer), PostAccounts(db.accounts, rows);
    forall x | x in db.accounts
      ensures installed[x] == posted[x]
      ensures db.accounts[x].Wallet? ==> InRange(db.accounts[x].cached + Delta(rows, x))
    {
      WalletIdsAreWallets(db, entries, ids, x);
    }
    assert installed == posted;
  }
}
