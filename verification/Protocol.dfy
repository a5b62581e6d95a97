/** The posting protocol as a transition system. N calls run interleaved, one
    SQL statement (or one in-memory decision) per move. A move names the calling
    process, what its statement returned, and the clock afterwards; any statement
    may fail, and a commit or a wallet insert may take effect and still report an
    error. Writes of a transaction stay in its process until it commits. */
module Protocol {
  import opened Int64
  import opened Ledger
  import Calendar
  import Kyc
  import Currency

  const MAX_RETRIES: nat := 8

  datatype Request =
    | Direct(input: PostingInput)
    | TopUp(user: string, amountMinor: int64, currency: string, key: string)
      // `to` is the user the recipient id denotes, `spelled` the id as the caller wrote it
    | Send(from: string, to: string, spelled: string, amountMinor: int64, currency: string, key: string)

  function InputOf(r: Request): PostingInput {
    match r
    case Direct(input) => input
    case TopUp(user, amount, currency, key) =>
      PostingInput(key, [
        EntryInput(AccountRef("SYSTEM:EXTERNAL:" + currency, ""), Debit, amount, currency),
        EntryInput(AccountRef("", user), Credit, amount, currency)])
    case Send(from, to, _, amount, currency, key) =>
      PostingInput(key, [
        EntryInput(AccountRef("", from), Debit, amount, currency),
        EntryInput(AccountRef("", to), Credit, amount, currency)])
  }

  /** SQLSTATE classes the engine distinguishes. */
  datatype Error = Unique | Retryable | Other

  datatype Outcome = Success(id: nat, replayed: bool) | Failure

  datatype Pc =
    | Fresh         // call accepted
    | Balance       // about to read the sender's cached balance
    | Clock         // about to read the KYC level and the clock
    | Day           // about to sum today's debits
    | Month         // about to sum this month's debits
    | Resolving     // about to look up the account of entry |ids|
    | Provisioning  // wallet lookup found nothing; about to insert it
    | Reselecting   // the insert lost a race; about to look it up again
    | Ready         // about to begin a transaction
    | Locking       // in a transaction, taking wallet locks in id order
    | Writing       // posting row inserted; entries, cache updates, commit
    | Failed        // transaction rolled back with an error
    | Done

  datatype Proc = Proc(
    req: Request, pc: Pc, now: nat, ids: seq<AccountId>, attempt: nat,
    at: nat, todo: set<AccountId>, held: set<AccountId>,
    postingId: nat, inserted: nat, pending: set<AccountId>, buffer: map<AccountId, int>,
    err: Error, outcome: Outcome)
  {
    function Entries(): seq<EntryInput> { InputOf(req).entries }

    function Key(): string { InputOf(req).key }

    function Rows(): seq<JournalEntry>
      requires |ids| == |Entries()|
    {
      Resolved(Entries(), ids)
    }

    function Wallets(): set<AccountId>
      requires |ids| == |Entries()|
    {
      WalletIds(Entries(), ids)
    }

    function Finish(o: Outcome): Proc { this.(pc := Done, outcome := o) }

    /** Rollback: locks and buffered writes are gone. */
    function RollBack(e: Error): Proc {
      this.(pc := Failed, err := e, todo := {}, held := {}, pending := {}, buffer := map[])
    }

    function StartPost(): Proc { this.(pc := Resolving, ids := []) }

    function AddId(id: AccountId): Proc {
      if |ids| + 1 == |Entries()| then this.(ids := ids + [id], pc := Ready, attempt := 0)
      else this.(ids := ids + [id], pc := Resolving)
    }
  }

  datatype State = State(db: Db, procs: seq<Proc>, nextId: nat, clock: nat, levels: map<string, int>)

  datatype Choice =
    | Row(id: nat)                    // the statement returned (or affected) this row
    | NoRow                           // it returned no row, or hit an existing unique key
    | Ok
    | Fault(err: Error)               // it failed without effect
    | Ambiguous(id: nat, err: Error)  // it took effect but reported an error

  datatype Move = Move(pid: nat, choice: Choice, clock: nat)

  // ----- queries ---------------------------------------------------------------

  /** Debits of one posting on wallets of a user in a currency. */
  function DebitsOf(accounts: map<AccountId, Account>, entries: seq<JournalEntry>, user: string, currency: string): int
  {
    if entries == [] then 0
    else
      var e := entries[|entries| - 1];
      DebitsOf(accounts, entries[..|entries| - 1], user, currency)
      + if e.account in accounts && accounts[e.account].Wallet? && accounts[e.account].user == user
           && e.currency == currency && e.direction == Debit then e.amountMinor else 0
  }

  /** The spending query: a user's wallet debits in a currency since an instant. */
  function OutgoingSince(accounts: map<AccountId, Account>, journal: seq<Posting>, user: string, currency: string,
                         since: int): int
  {
    if journal == [] then 0
    else
      var p := journal[|journal| - 1];
      OutgoingSince(accounts, journal[..|journal| - 1], user, currency, since)
      + if p.at >= since then DebitsOf(accounts, p.entries, user, currency) else 0
  }

  ghost predicate RowIs(db: Db, id: nat, e: EntryInput) {
    && id in db.accounts
    && if e.account.IsSystem() then db.accounts[id].System? && db.accounts[id].code == e.account.systemCode
       else IsWallet(db.accounts[id], e.account.userId, e.currency)
  }

  ghost predicate IsPosting(journal: seq<Posting>, id: nat, key: string) {
    exists i :: 0 <= i < |journal| && journal[i].key == key && journal[i].id == id
  }

  /** Another transaction has inserted this key and not finished: inserting it waits. */
  ghost predicate KeyHeldByOther(s: State, pid: nat, key: string) {
    exists q :: 0 <= q < |s.procs| && q != pid && s.procs[q].pc.Writing? && s.procs[q].Key() == key
  }

  ghost predicate LockedByOther(s: State, pid: nat, x: AccountId) {
    exists q :: 0 <= q < |s.procs| && q != pid && x in s.procs[q].held
  }

  // ----- which results a statement can have -----------------------------------

  ghost predicate CanRead(accounts: map<AccountId, Account>, p: Proc, c: Choice) {
    && p.req.Send?
    && match c
       case Row(x) => x in accounts && IsWallet(accounts[x], p.req.from, p.req.currency)
       case NoRow => !HasWallet(accounts, p.req.from, p.req.currency)
       case Fault(_) => true
       case _ => false
  }

  ghost predicate CanResolve(db: Db, p: Proc, c: Choice) {
    && |p.ids| < |p.Entries()|
    && match c
       case Row(x) => RowIs(db, x, p.Entries()[|p.ids|])
       case NoRow => forall x :: !RowIs(db, x, p.Entries()[|p.ids|])
       case Fault(_) => true
       case _ => false
  }

  ghost predicate CanProvision(db: Db, p: Proc, c: Choice) {
    && |p.ids| < |p.Entries()|
    && var e := p.Entries()[|p.ids|];
       match c
       case Row(x) => CanApply(db, Provisioned(x, e.account.userId, e.currency))
       case NoRow => HasWallet(db.accounts, e.account.userId, e.currency)
       case Fault(_) => true
       case Ambiguous(x, _) => CanApply(db, Provisioned(x, e.account.userId, e.currency))
       case Ok => false
  }

  ghost predicate CanLock(s: State, pid: nat, p: Proc, c: Choice) {
    && |p.ids| == |p.Entries()|
    && match c
       case Row(x) => x in p.todo && (forall y | y in p.todo :: x <= y) && !LockedByOther(s, pid, x)
       case Ok => p.todo == {} && !KeyUsed(s.db.journal, p.Key()) && !KeyHeldByOther(s, pid, p.Key())
       case NoRow => p.todo == {} && KeyUsed(s.db.journal, p.Key())
       case Fault(_) => true
       case Ambiguous(_, _) => false
  }

  ghost predicate CanWrite(db: Db, p: Proc, c: Choice) {
    && |p.ids| == |p.Entries()| && p.inserted <= |p.Entries()|
    && match c
       case Ok => p.inserted < |p.Entries()| || p.pending == {}
       case Row(x) => p.inserted == |p.Entries()| && x in p.pending && x in db.accounts && db.accounts[x].Wallet?
       case Fault(_) => true
       case Ambiguous(_, _) => p.inserted == |p.Entries()| && p.pending == {} && Balanced(p.Rows()[..p.inserted])
       case NoRow => false
  }

  ghost predicate CanRecover(db: Db, p: Proc, c: Choice) {
    if !p.err.Unique? then c.Ok?
    else
      match c
      case Row(i) => IsPosting(db.journal, i, p.Key())
      case NoRow => !KeyUsed(db.journal, p.Key())
      case Fault(_) => true
      case _ => false
  }

  ghost predicate EnabledChoice(s: State, pid: nat, p: Proc, c: Choice) {
    match p.pc
    case Fresh => c.Ok? || c.Fault?
    case Balance => CanRead(s.db.accounts, p, c)
    case Clock => p.req.Send? && (c.Ok? || c.Fault?)
    case Day => p.req.Send? && (c.Ok? || c.Fault?)
    case Month => p.req.Send? && (c.Ok? || c.Fault?)
    case Resolving => CanResolve(s.db, p, c)
    case Provisioning => CanProvision(s.db, p, c)
    case Reselecting => CanResolve(s.db, p, c)
    case Ready => |p.ids| == |p.Entries()| && (c.Ok? || c.Fault?)
    case Locking => CanLock(s, pid, p, c)
    case Writing => CanWrite(s.db, p, c)
    case Failed => CanRecover(s.db, p, c)
    case Done => false
  }

  ghost predicate Enabled(s: State, m: Move) {
    && m.pid < |s.procs|
    && s.clock <= m.clock
    && EnabledChoice(s, m.pid, s.procs[m.pid], m.choice)
  }

  // ----- effects ---------------------------------------------------------------

  datatype Effect = Effect(db: Db, proc: Proc, nextId: nat)

  /** Guards of the service before any statement, and of Post before any statement. */
  ghost function Begin(p: Proc): Proc {
    match p.req
    case Direct(input) => if Accepts(input) then p.StartPost() else p.Finish(Failure)
    case TopUp(_, amount, currency, _) =>
      if amount <= 0 || !Currency.IsSupported(currency) || !Accepts(InputOf(p.req)) then p.Finish(Failure)
      else p.StartPost()
    case Send(from, _, spelled, amount, currency, _) =>
      if amount <= 0 || !Currency.IsSupported(currency) || spelled == from then p.Finish(Failure)
      else p.(pc := Balance)
  }

  /** One ceiling comparison, with the int64 addition as the code performs it;
      a sum that does not fit int64 cannot be scanned and is an error. */
  predicate WithinCeiling(sum: int, amount: int, ceiling: int) {
    InRange(sum) && Wrap(sum + amount) <= ceiling
  }

  function AfterDay(s: State, p: Proc): Proc
    requires p.req.Send?
  {
    var sum := OutgoingSince(s.db.accounts, s.db.journal, p.req.from, p.req.currency, Calendar.StartOfDay(p.now));
    if p.req.from in s.levels && WithinCeiling(sum, p.req.amountMinor, Kyc.LimitsFor(s.levels[p.req.from]).dailyMinor)
    then p.(pc := Month) else p.Finish(Failure)
  }

  ghost function AfterMonth(s: State, p: Proc): Proc
    requires p.req.Send?
  {
    var sum := OutgoingSince(s.db.accounts, s.db.journal, p.req.from, p.req.currency, Calendar.StartOfMonth(p.now));
    if p.req.from in s.levels && WithinCeiling(sum, p.req.amountMinor, Kyc.LimitsFor(s.levels[p.req.from]).monthlyMinor)
       && Accepts(InputOf(p.req))
    then p.StartPost() else p.Finish(Failure)
  }

  /** The accounts with the buffered cache values. */
  function Installed(accounts: map<AccountId, Account>, buffer: map<AccountId, int>): map<AccountId, Account> {
    map x | x in accounts ::
      match accounts[x]
      case Wallet(u, c, b) => Wallet(u, c, if x in buffer then buffer[x] else b)
      case System(_, _) => accounts[x]
  }

  /** Install the buffered cache values and append the posting. */
  function Commit(db: Db, p: Proc): Db
    requires |p.ids| == |p.Entries()| && p.inserted <= |p.Entries()|
  {
    Db(Installed(db.accounts, p.buffer),
       db.journal + [Posting(p.postingId, p.Key(), p.Rows()[..p.inserted], p.at)])
  }

  ghost function WriteEffect(s: State, p: Proc, c: Choice): Effect
    requires p.pc.Writing? && |p.ids| == |p.Entries()| && p.inserted <= |p.Entries()|
    requires c.Row? ==> c.id in s.db.accounts && s.db.accounts[c.id].Wallet?
  {
    match c
    case Ok =>
      if p.inserted < |p.Entries()| then Effect(s.db, p.(inserted := p.inserted + 1), s.nextId)
      else if Balanced(p.Rows()[..p.inserted]) then
        Effect(Commit(s.db, p),
               p.(held := {}, pending := {}, buffer := map[]).Finish(Success(p.postingId, false)), s.nextId)
      else Effect(s.db, p.RollBack(Other), s.nextId)
    case Row(x) =>
      var v := s.db.accounts[x].cached + Delta(p.Rows(), x);
      if InRange(v) then Effect(s.db, p.(pending := p.pending - {x}, buffer := p.buffer[x := v]), s.nextId)
      else Effect(s.db, p.RollBack(Other), s.nextId)
    case Ambiguous(_, e) => Effect(Commit(s.db, p), p.RollBack(e), s.nextId)
    case Fault(e) => Effect(s.db, p.RollBack(e), s.nextId)
    case NoRow => Effect(s.db, p, s.nextId)
  }

  ghost function LockEffect(s: State, p: Proc, c: Choice): Effect
    requires p.pc.Locking? && |p.ids| == |p.Entries()|
  {
    match c
    case Row(x) => Effect(s.db, p.(todo := p.todo - {x}, held := p.held + {x}), s.nextId)
    case Ok =>
      Effect(s.db,
             p.(pc := Writing, postingId := s.nextId, inserted := 0, pending := p.Wallets(), buffer := map[]),
             s.nextId + 1)
    case NoRow => Effect(s.db, p.RollBack(Unique), s.nextId)
    case Fault(e) => Effect(s.db, p.RollBack(e), s.nextId)
    case Ambiguous(_, _) => Effect(s.db, p, s.nextId)
  }

  ghost function ProvisionEffect(s: State, p: Proc, c: Choice): Effect
    requires |p.ids| < |p.Entries()|
  {
    var e := p.Entries()[|p.ids|];
    match c
    case Row(x) => Effect(Apply(s.db, Provisioned(x, e.account.userId, e.currency)), p.AddId(x), s.nextId)
    case NoRow => Effect(s.db, p.(pc := Reselecting), s.nextId)
    case Fault(err) => Effect(s.db, if err.Unique? then p.(pc := Reselecting) else p.Finish(Failure), s.nextId)
    case Ambiguous(x, err) =>
      Effect(Apply(s.db, Provisioned(x, e.account.userId, e.currency)),
             if err.Unique? then p.(pc := Reselecting) else p.Finish(Failure), s.nextId)
    case Ok => Effect(s.db, p, s.nextId)
  }

  function AfterFailure(p: Proc, c: Choice): Proc {
    match p.err
    case Unique => if c.Row? then p.Finish(Success(c.id, true)) else p.Finish(Failure)
    case Retryable =>
      if p.attempt + 1 < MAX_RETRIES then p.(pc := Ready, attempt := p.attempt + 1) else p.Finish(Failure)
    case Other => p.Finish(Failure)
  }

  ghost function EffectOf(s: State, m: Move): Effect
    requires Enabled(s, m)
  {
    var p := s.procs[m.pid];
    var c := m.choice;
    match p.pc
    case Provisioning => ProvisionEffect(s, p, c)
    case Locking => LockEffect(s, p, c)
    case Writing => WriteEffect(s, p, c)
    case _ => Effect(s.db, QuietEffect(s, p, c, m.clock), s.nextId)
  }

  /** Moves that touch no shared data. */
  ghost function QuietEffect(s: State, p: Proc, c: Choice, clock: nat): Proc
    requires !p.pc.Provisioning? && !p.pc.Locking? && !p.pc.Writing?
    requires p.pc.Balance? || p.pc.Clock? || p.pc.Day? || p.pc.Month? ==> p.req.Send?
    requires p.pc.Resolving? || p.pc.Reselecting? ==> |p.ids| < |p.Entries()|
    requires p.pc.Ready? ==> |p.ids| == |p.Entries()|
    requires p.pc.Balance? && c.Row? ==> c.id in s.db.accounts && s.db.accounts[c.id].Wallet?
  {
    match p.pc
    case Fresh => if c.Ok? then Begin(p) else p.Finish(Failure)
    case Balance =>
      if c.Row? && s.db.accounts[c.id].cached >= p.req.amountMinor then p.(pc := Clock) else p.Finish(Failure)
    case Clock => if c.Ok? then p.(pc := Day, now := clock) else p.Finish(Failure)
    case Day => if c.Ok? then AfterDay(s, p) else p.Finish(Failure)
    case Month => if c.Ok? then AfterMonth(s, p) else p.Finish(Failure)
    case Resolving =>
      if c.Row? then p.AddId(c.id)
      else if c.NoRow? && !p.Entries()[|p.ids|].account.IsSystem() then p.(pc := Provisioning)
      else p.Finish(Failure)
    case Reselecting => if c.Row? then p.AddId(c.id) else p.Finish(Failure)
    case Ready =>
      (match c
       case Fault(e) => p.RollBack(e)
       case _ => p.(pc := Locking, at := clock, todo := p.Wallets(), held := {}))
    case Failed => AfterFailure(p, c)
    case _ => p
  }

  ghost function Next(s: State, m: Move): State
    requires Enabled(s, m)
  {
    var e := EffectOf(s, m);
    State(e.db, s.procs[m.pid := e.proc], e.nextId, m.clock, s.levels)
  }

  // ----- runs --------------------------------------------------------------------

  /** The state after a sequence of moves; moves that are not enabled are skipped. */
  ghost function Run(s: State, moves: seq<Move>): State {
    if moves == [] then s
    else
      var t := Run(s, moves[..|moves| - 1]);
      if Enabled(t, moves[|moves| - 1]) then Next(t, moves[|moves| - 1]) else t
  }

  /** The system accounts the schema seeds; no other currency has any. */
  predicate InCatalog(code: string, currency: string) {
    && currency in {"USD", "CRC"}
    && code in {"SYSTEM:FEES:" + currency, "SYSTEM:SUSPENSE:" + currency, "SYSTEM:EXTERNAL:" + currency,
                "SYSTEM:RESERVE:" + currency, "SYSTEM:ESCROW:" + currency, "SYSTEM:SAVINGS:" + currency}
  }

  /** Exactly the seeded rows: one per catalog code, and no wallets. */
  ghost predicate Seeded(accounts: map<AccountId, Account>) {
    && (forall x | x in accounts :: accounts[x].System? && InCatalog(accounts[x].code, accounts[x].currency))
    && (forall x, y | x in accounts && y in accounts && accounts[x] == accounts[y] :: x == y)
    && (forall code, currency | InCatalog(code, currency) ::
          exists x :: x in accounts && accounts[x] == System(code, currency))
  }

  ghost predicate NotBegun(p: Proc) {
    p.pc.Fresh? && p.ids == [] && p.todo == p.held == p.pending == {} && p.buffer == map[]
  }

  /** A freshly migrated database and calls that have not begun. */
  ghost predicate Init(s: State) {
    && s.db.journal == []
    && Seeded(s.db.accounts)
    && (forall i | 0 <= i < |s.procs| :: NotBegun(s.procs[i]))
  }
}
