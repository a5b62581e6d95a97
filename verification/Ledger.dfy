/** Postings, the journal, and the two balances the schema keeps of it: the
    derived balance (a sum over entries) and the wallet's cached balance (a sum
    of per-posting int64 deltas). */
module Ledger {
  import opened Int64

  datatype Option<+T> = None | Some(value: T)

  type AccountId = nat

  datatype Direction = Debit | Credit | Unknown(text: string)

  datatype AccountRef = AccountRef(systemCode: string, userId: string) {
    predicate IsSystem() { systemCode != "" }
  }

  datatype EntryInput = EntryInput(account: AccountRef, direction: Direction, amountMinor: int64, currency: string)

  datatype PostingInput = PostingInput(key: string, entries: seq<EntryInput>)

  datatype ValidationError = TooFewEntries | BadAmount | InvalidDirection(text: string) | Unbalanced

  /** A journal_entries row; its created_at is the posting's. */
  datatype JournalEntry = JournalEntry(account: AccountId, direction: Direction, amountMinor: int64, currency: string)

  /** A journal_postings row with its entries, in commit order in the journal. */
  datatype Posting = Posting(id: nat, key: string, entries: seq<JournalEntry>, at: int)

  datatype Account =
    | System(code: string, currency: string)
    | Wallet(user: string, currency: string, cached: int)

  datatype Db = Db(accounts: map<AccountId, Account>, journal: seq<Posting>)

  function Signed(direction: Direction, amount: int): int {
    match direction
    case Debit => -amount
    case Credit => amount
    case Unknown(_) => 0
  }

  /** Exact credits minus debits of a posting input in one currency. */
  function InputNet(entries: seq<EntryInput>, currency: string): int {
    if entries == [] then 0
    else
      var last := entries[|entries| - 1];
      InputNet(entries[..|entries| - 1], currency)
      + if last.currency == currency then Signed(last.direction, last.amountMinor) else 0
  }

  /** Exact credits minus debits of journal entries in one currency. */
  function NetIn(entries: seq<JournalEntry>, currency: string): int {
    if entries == [] then 0
    else
      var last := entries[|entries| - 1];
      NetIn(entries[..|entries| - 1], currency)
      + if last.currency == currency then Signed(last.direction, last.amountMinor) else 0
  }

  /** Exact credits minus debits of journal entries on one account. */
  function OnAccount(entries: seq<JournalEntry>, x: AccountId): int {
    if entries == [] then 0
    else
      var last := entries[|entries| - 1];
      OnAccount(entries[..|entries| - 1], x)
      + if last.account == x then Signed(last.direction, last.amountMinor) else 0
  }

  /** Gross amount (both sides) of journal entries on one account. */
  function GrossOn(entries: seq<JournalEntry>, x: AccountId): int {
    if entries == [] then 0
    else
      var last := entries[|entries| - 1];
      GrossOn(entries[..|entries| - 1], x) + if last.account == x then last.amountMinor else 0
  }

  // ----- validation ------------------------------------------------------

  predicate WellFormedEntry(e: EntryInput) {
    e.amountMinor > 0 && !e.direction.Unknown?
  }

  predicate WellFormed(entries: seq<EntryInput>) {
    forall i | 0 <= i < |entries| :: WellFormedEntry(entries[i])
  }

  function EntryError(e: EntryInput): ValidationError {
    if e.amountMinor <= 0 then BadAmount
    else match e.direction case Unknown(t) => InvalidDirection(t) case _ => Unbalanced
  }

  /** What the in-memory check can establish: well-formed entries whose net is
      zero modulo 2^64 in every currency. */
  ghost predicate Accepts(input: PostingInput) {
    && |input.entries| >= 2
    && WellFormed(input.entries)
    && (forall c :: Congruent(InputNet(input.entries, c), 0))
  }

  /** The error of the first malformed entry, if any. */
  function FirstError(entries: seq<EntryInput>): Option<ValidationError> {
    if entries == [] then None
    else
      var earlier := FirstError(entries[..|entries| - 1]);
      if earlier.Some? then earlier
      else if WellFormedEntry(entries[|entries| - 1]) then None
      else Some(EntryError(entries[|entries| - 1]))
  }

  lemma {:induction false} FirstErrorNone(entries: seq<EntryInput>)
    ensures FirstError(entries).None? <==> WellFormed(entries)
  {
    if entries != [] {
      FirstErrorNone(entries[..|entries| - 1]);
    }
  }

  lemma {:induction false} FirstErrorOfPrefix(entries: seq<EntryInput>, i: nat)
    requires i <= |entries| && FirstError(entries[..i]).Some?
    ensures FirstError(entries) == FirstError(entries[..i])
    decreases |entries| - i
  {
    if i == |entries| {
      assert entries[..i] == entries;
    } else {
      assert entries[..i + 1][..i] == entries[..i];
      FirstErrorOfPrefix(entries, i + 1);
    }
  }

  /** `m[k] += amount` on a map of int64, where an absent key counts as zero. */
  function AddTo<K>(m: map<K, int64>, k: K, amount: int): map<K, int64> {
    m[k := Wrap((if k in m then m[k] else 0) + amount)]
  }

  /** The accumulator map holds each currency's wrapped net, and only nonzero
      nets need an entry. */
  ghost predicate Accumulates(net: map<string, int64>, entries: seq<EntryInput>) {
    forall c :: Wrap(InputNet(entries, c)) == if c in net then net[c] else 0
  }

  lemma AccumulatesStep(net: map<string, int64>, entries: seq<EntryInput>)
    requires entries != [] && Accumulates(net, entries[..|entries| - 1])
    ensures var e := entries[|entries| - 1];
      Accumulates(AddTo(net, e.currency, Signed(e.direction, e.amountMinor)), entries)
  {
    var e := entries[|entries| - 1];
    var earlier := entries[..|entries| - 1];
    var before := if e.currency in net then net[e.currency] else 0;
    assert before == Wrap(InputNet(earlier, e.currency));
    WrapStep(InputNet(earlier, e.currency), Signed(e.direction, e.amountMinor));
    var net' := AddTo(net, e.currency, Signed(e.direction, e.amountMinor));
    forall c ensures Wrap(InputNet(entries, c)) == if c in net' then net'[c] else 0 {
      assert Wrap(InputNet(earlier, c)) == if c in net then net[c] else 0;
    }
  }

  lemma AccumulatorsDecide(net: map<string, int64>, entries: seq<EntryInput>)
    requires Accumulates(net, entries)
    ensures (forall c | c in net :: net[c] == 0) <==> forall c :: Congruent(InputNet(entries, c), 0)
  {
    forall c ensures Congruent(InputNet(entries, c), 0) <==> (c in net ==> net[c] == 0) {
      assert Wrap(InputNet(entries, c)) == if c in net then net[c] else 0;
      WrapZero(InputNet(entries, c));
    }
    if c :| c in net && net[c] != 0 {
      assert !Congruent(InputNet(entries, c), 0);
    }
  }

  method AllZero(net: map<string, int64>) returns (zero: bool)
    ensures zero <==> forall c | c in net :: net[c] == 0
  {
    var rest := net.Keys;
    while rest != {}
      invariant rest <= net.Keys
      invariant forall c | c in net.Keys - rest :: net[c] == 0
    {
      var c :| c in rest;
      if net[c] != 0 {
        return false;
      }
      rest := rest - {c};
    }
    return true;
  }

  lemma AccumulatesNext(net: map<string, int64>, entries: seq<EntryInput>, i: nat)
    requires i < |entries| && Accumulates(net, entries[..i])
    ensures var signed := Signed(entries[i].direction, entries[i].amountMinor);
      Accumulates(AddTo(net, entries[i].currency, signed), entries[..i + 1])
  {
    assert entries[..i + 1][..i] == entries[..i];
    AccumulatesStep(net, entries[..i + 1]);
  }

  lemma FirstErrorNext(entries: seq<EntryInput>, i: nat)
    requires i < |entries| && FirstError(entries[..i]).None?
    ensures WellFormedEntry(entries[i]) ==> FirstError(entries[..i + 1]).None?
    ensures !WellFormedEntry(entries[i]) ==> FirstError(entries) == Some(EntryError(entries[i]))
  {
    assert entries[..i + 1][..i] == entries[..i];
    if !WellFormedEntry(entries[i]) { FirstErrorOfPrefix(entries, i + 1); }
  }

  /** The first loop of the check: stops at the first malformed entry, else
      returns the per-currency accumulators. */
  method Accumulate(entries: seq<EntryInput>) returns (error: Option<ValidationError>, net: map<string, int64>)
    ensures error == FirstError(entries)
    ensures error.None? ==> Accumulates(net, entries)
  {
    net := map[];
    for i := 0 to |entries|
      invariant FirstError(entries[..i]).None?
      invariant Accumulates(net, entries[..i])
    {
      var e := entries[i];
      FirstErrorNext(entries, i);
      if e.amountMinor <= 0 {
        return Some(BadAmount), net;
      }
      AccumulatesNext(net, entries, i);
      match e.direction
      case Debit => net := AddTo(net, e.currency, -e.amountMinor);
      case Credit => net := AddTo(net, e.currency, e.amountMinor);
      case Unknown(t) =>
        return Some(InvalidDirection(t)), net;
    }
    assert entries[..|entries|] == entries;
    return None, net;
  }

  /** The first entry without a positive amount or a direction the ledger knows. */
  predicate FirstBad(entries: seq<EntryInput>, i: int) {
    && 0 <= i < |entries| && (entries[i].amountMinor <= 0 || entries[i].direction !in {Debit, Credit})
    && forall j | 0 <= j < i :: entries[j].amountMinor > 0 && entries[j].direction in {Debit, Credit}
  }

  lemma ErrorAt(entries: seq<EntryInput>, i: nat)
    requires FirstBad(entries, i)
    ensures FirstError(entries) == Some(if entries[i].amountMinor <= 0 then BadAmount
                                        else InvalidDirection(entries[i].direction.text))
  {
    FirstErrorNone(entries[..i]);
    FirstErrorNext(entries, i);
  }

  lemma {:induction false} SomeFirstBad(entries: seq<EntryInput>, n: nat)
    requires n <= |entries| && !WellFormed(entries[..n])
    ensures exists i :: FirstBad(entries, i)
    decreases n
  {
    if WellFormed(entries[..n - 1]) {
      forall j | 0 <= j < n - 1 ensures entries[j].amountMinor > 0 && entries[j].direction in {Debit, Credit} {
        assert WellFormedEntry(entries[..n - 1][j]);
      }
      assert entries[..n] == entries[..n - 1] + [entries[n - 1]];
      assert FirstBad(entries, n - 1);
    } else {
      SomeFirstBad(entries, n - 1);
    }
  }

  /** The error is the first bad entry's: its amount's before its direction's. */
  lemma ErrorIsFirst(entries: seq<EntryInput>)
    ensures FirstError(entries).None? <==> forall i :: !FirstBad(entries, i)
    ensures forall i | FirstBad(entries, i) ::
      FirstError(entries) == Some(if entries[i].amountMinor <= 0 then BadAmount
                                  else InvalidDirection(entries[i].direction.text))
  {
    forall i | FirstBad(entries, i)
      ensures FirstError(entries) == Some(if entries[i].amountMinor <= 0 then BadAmount
                                          else InvalidDirection(entries[i].direction.text))
    {
      ErrorAt(entries, i);
    }
    FirstErrorNone(entries);
    assert entries[..|entries|] == entries;
    if !WellFormed(entries) { SomeFirstBad(entries, |entries|); }
  }

  method Validate(input: PostingInput) returns (error: Option<ValidationError>)
    ensures error.None? <==> Accepts(input)
    ensures |input.entries| < 2 ==> error == Some(TooFewEntries)
    ensures |input.entries| >= 2 && !WellFormed(input.entries) ==> error == FirstError(input.entries)
    ensures |input.entries| >= 2 && WellFormed(input.entries) && error.Some? ==> error.value == Unbalanced
    ensures error == Some(Unbalanced) <==>
      && |input.entries| >= 2 && (forall i :: !FirstBad(input.entries, i))
      && exists c :: !Congruent(InputNet(input.entries, c), 0)
    ensures error == Some(BadAmount) <==>
      |input.entries| >= 2 && exists i :: FirstBad(input.entries, i) && input.entries[i].amountMinor <= 0
    ensures forall text :: error == Some(InvalidDirection(text)) <==>
      && |input.entries| >= 2
      && exists i :: FirstBad(input.entries, i) && input.entries[i].amountMinor > 0
                     && input.entries[i].direction == Unknown(text)
  {
    ErrorIsFirst(input.entries);
    if |input.entries| < 2 {
      return Some(TooFewEntries);
    }
    var malformed, net := Accumulate(input.entries);
    FirstErrorNone(input.entries);
    if malformed.Some? {
      return malformed;
    }
    AccumulatorsDecide(net, input.entries);
    var zero := AllZero(net);
    return if zero then None else Some(Unbalanced);
  }

  /** The in-memory check is strictly weaker than exact balance: three credits
      summing to 2^64 pass it. */
  lemma AcceptsWrappedCredits(account: AccountRef, key: string)
    ensures exists input: PostingInput :: Accepts(input) && InputNet(input.entries, "USD") == TWO64
  {
    var e0 := EntryInput(account, Credit, MAX, "USD");
    var e2 := EntryInput(account, Credit, 2, "USD");
    var es := [e0, e0, e2];
    assert es[..2] == [e0, e0] && [e0, e0][..1] == [e0] && [e0][..0] == [];
    forall c ensures InputNet(es, c) == if c == "USD" then TWO64 else 0 {
      assert InputNet([e0], c) == if c == "USD" then MAX else 0;
      assert InputNet([e0, e0], c) == if c == "USD" then 2 * MAX else 0;
    }
    assert Accepts(PostingInput(key, es));
  }

  // ----- resolution of inputs to journal entries ---------------------------

  function Resolved(entries: seq<EntryInput>, ids: seq<AccountId>): (r: seq<JournalEntry>)
    requires |ids| == |entries|
    ensures |r| == |entries|
  {
    seq(|entries|, i requires 0 <= i < |entries| =>
      JournalEntry(ids[i], entries[i].direction, entries[i].amountMinor, entries[i].currency))
  }

  lemma {:induction false} ResolvedNet(entries: seq<EntryInput>, ids: seq<AccountId>, c: string)
    requires |ids| == |entries|
    ensures NetIn(Resolved(entries, ids), c) == InputNet(entries, c)
  {
    if entries != [] {
      var n := |entries| - 1;
      assert Resolved(entries, ids)[..n] == Resolved(entries[..n], ids[..n]);
      ResolvedNet(entries[..n], ids[..n], c);
    }
  }

  /** The deferred constraint trigger: exact balance in every currency. */
  ghost predicate Balanced(entries: seq<JournalEntry>) {
    forall c :: NetIn(entries, c) == 0
  }

  /** The trigger's query: no currency among the posting's rows has a nonzero sum. */
  predicate TriggerPasses(entries: seq<JournalEntry>) {
    forall k | 0 <= k < |entries| :: NetIn(entries, entries[k].currency) == 0
  }

  lemma {:induction false} AbsentCurrency(entries: seq<JournalEntry>, c: string)
    requires forall k | 0 <= k < |entries| :: entries[k].currency != c
    ensures NetIn(entries, c) == 0
  {
    if entries != [] { AbsentCurrency(entries[..|entries| - 1], c); }
  }

  lemma TriggerIsBalance(entries: seq<JournalEntry>)
    ensures TriggerPasses(entries) <==> Balanced(entries)
  {
    forall c | TriggerPasses(entries) ensures NetIn(entries, c) == 0 {
      if k :| 0 <= k < |entries| && entries[k].currency == c {
        assert NetIn(entries, entries[k].currency) == 0;
      } else {
        AbsentCurrency(entries, c);
      }
    }
  }

  /** An exactly balanced, well-formed posting always passes the in-memory check,
      so the trigger is the only check that decides balance. */
  lemma BalancedIsAccepted(input: PostingInput, ids: seq<AccountId>)
    requires |ids| == |input.entries| >= 2
    requires WellFormed(input.entries)
    requires Balanced(Resolved(input.entries, ids))
    ensures Accepts(input)
  {
    forall c ensures Congruent(InputNet(input.entries, c), 0) {
      ResolvedNet(input.entries, ids, c);
    }
  }

  // ----- cache deltas -------------------------------------------------------

  /** What the engine adds to the cached balance of wallet x for one posting. */
  function Delta(entries: seq<JournalEntry>, x: AccountId): int64 {
    Wrap(OnAccount(entries, x))
  }

  function WalletIds(entries: seq<EntryInput>, ids: seq<AccountId>): (r: set<AccountId>)
    requires |ids| == |entries|
  {
    set i | 0 <= i < |entries| && !entries[i].account.IsSystem() :: ids[i]
  }

  lemma {:induction false} UntouchedDelta(entries: seq<JournalEntry>, x: AccountId)
    requires forall i | 0 <= i < |entries| :: entries[i].account != x
    ensures OnAccount(entries, x) == 0 && Delta(entries, x) == 0
  {
    if entries != [] {
      UntouchedDelta(entries[..|entries| - 1], x);
    }
  }

  lemma WalletIdsStep(entries: seq<EntryInput>, ids: seq<AccountId>, i: nat)
    requires |ids| == |entries| && i < |entries|
    ensures WalletIds(entries[..i + 1], ids[..i + 1])
         == WalletIds(entries[..i], ids[..i]) + if entries[i].account.IsSystem() then {} else {ids[i]}
  {
    var w := WalletIds(entries[..i + 1], ids[..i + 1]);
    forall x | x in WalletIds(entries[..i], ids[..i]) ensures x in w {
      var k :| 0 <= k < i && !entries[k].account.IsSystem() && ids[k] == x;
      assert entries[..i + 1][k] == entries[k] && ids[..i + 1][k] == x;
    }
    if !entries[i].account.IsSystem() {
      assert entries[..i + 1][i] == entries[i] && ids[..i + 1][i] == ids[i];
    }
  }

  lemma OnAccountStep(entries: seq<JournalEntry>, i: nat, x: AccountId)
    requires i < |entries|
    ensures OnAccount(entries[..i + 1], x) == OnAccount(entries[..i], x)
         + if entries[i].account == x then Signed(entries[i].direction, entries[i].amountMinor) else 0
  {
    assert entries[..i + 1][..i] == entries[..i];
  }

  /** Prefixes of a posting touch only the wallets they name, when no wallet
      shares its id with a system entry. */
  ghost predicate DisjointKinds(entries: seq<EntryInput>, ids: seq<AccountId>)
    requires |ids| == |entries|
  {
    forall i, j | 0 <= i < |entries| && 0 <= j < |entries| ::
      entries[i].account.IsSystem() && !entries[j].account.IsSystem() ==> ids[i] != ids[j]
  }

  lemma UnnamedWallet(entries: seq<EntryInput>, ids: seq<AccountId>, i: nat)
    requires |ids| == |entries| && i < |entries| && DisjointKinds(entries, ids)
    requires !entries[i].account.IsSystem() && ids[i] !in WalletIds(entries[..i], ids[..i])
    ensures OnAccount(Resolved(entries, ids)[..i], ids[i]) == 0
  {
    var je := Resolved(entries, ids)[..i];
    forall k | 0 <= k < i ensures je[k].account != ids[i] {
      if !entries[k].account.IsSystem() {
        assert entries[..i][k] == entries[k] && ids[..i][k] == ids[k];
        assert ids[k] in WalletIds(entries[..i], ids[..i]);
      }
    }
    UntouchedDelta(je, ids[i]);
  }

  lemma SystemRowTouchesNoWallet(entries: seq<EntryInput>, ids: seq<AccountId>, i: nat, x: AccountId)
    requires |ids| == |entries| && i < |entries| && DisjointKinds(entries, ids)
    requires entries[i].account.IsSystem() && x in WalletIds(entries[..i], ids[..i])
    ensures x != ids[i]
  {
    var k :| 0 <= k < i && !entries[..i][k].account.IsSystem() && ids[..i][k] == x;
    assert !entries[k].account.IsSystem() && ids[k] == x;
  }

  /** The accumulator map after the first entries holds each wallet's wrapped net. */
  ghost predicate DeltasOf(deltas: map<AccountId, int64>, entries: seq<EntryInput>, ids: seq<AccountId>, i: nat)
    requires |ids| == |entries| && i <= |entries|
  {
    && deltas.Keys == WalletIds(entries[..i], ids[..i])
    && forall x | x in deltas :: deltas[x] == Wrap(OnAccount(Resolved(entries, ids)[..i], x))
  }

  lemma DeltasSkip(deltas: map<AccountId, int64>, entries: seq<EntryInput>, ids: seq<AccountId>, i: nat)
    requires |ids| == |entries| && i < |entries| && DisjointKinds(entries, ids)
    requires DeltasOf(deltas, entries, ids, i) && entries[i].account.IsSystem()
    ensures DeltasOf(deltas, entries, ids, i + 1)
  {
    WalletIdsStep(entries, ids, i);
    forall x | x in deltas ensures deltas[x] == Wrap(OnAccount(Resolved(entries, ids)[..i + 1], x)) {
      SystemRowTouchesNoWallet(entries, ids, i, x);
      OnAccountStep(Resolved(entries, ids), i, x);
    }
  }

  lemma DeltaOf(deltas: map<AccountId, int64>, entries: seq<EntryInput>, ids: seq<AccountId>, i: nat)
    requires |ids| == |entries| && i < |entries| && DisjointKinds(entries, ids)
    requires DeltasOf(deltas, entries, ids, i) && !entries[i].account.IsSystem()
    ensures Wrap(OnAccount(Resolved(entries, ids)[..i], ids[i])) == if ids[i] in deltas then deltas[ids[i]] else 0
  {
    if ids[i] !in deltas { UnnamedWallet(entries, ids, i); }
  }

  /** What the next wallet entry makes of one wallet's delta. */
  lemma DeltaAdd(deltas: map<AccountId, int64>, entries: seq<EntryInput>, ids: seq<AccountId>, i: nat, x: AccountId)
    requires |ids| == |entries| && i < |entries| && DisjointKinds(entries, ids)
    requires DeltasOf(deltas, entries, ids, i) && !entries[i].account.IsSystem()
    requires x in deltas || x == ids[i]
    ensures AddTo(deltas, ids[i], Signed(entries[i].direction, entries[i].amountMinor))[x]
         == Wrap(OnAccount(Resolved(entries, ids)[..i + 1], x))
  {
    var je := Resolved(entries, ids);
    OnAccountStep(je, i, x);
    if x == ids[i] {
      DeltaOf(deltas, entries, ids, i);
      WrapStep(OnAccount(je[..i], x), Signed(entries[i].direction, entries[i].amountMinor));
    }
  }

  lemma DeltasAdd(deltas: map<AccountId, int64>, entries: seq<EntryInput>, ids: seq<AccountId>, i: nat)
    requires |ids| == |entries| && i < |entries| && DisjointKinds(entries, ids)
    requires DeltasOf(deltas, entries, ids, i) && !entries[i].account.IsSystem()
    ensures DeltasOf(AddTo(deltas, ids[i], Signed(entries[i].direction, entries[i].amountMinor)), entries, ids, i + 1)
  {
    WalletIdsStep(entries, ids, i);
    var deltas' := AddTo(deltas, ids[i], Signed(entries[i].direction, entries[i].amountMinor));
    forall x | x in deltas' ensures deltas'[x] == Wrap(OnAccount(Resolved(entries, ids)[..i + 1], x)) {
      DeltaAdd(deltas, entries, ids, i, x);
    }
  }

  /** The engine's delta loop: wrapping additions per wallet over the entries. */
  method ComputeDeltas(entries: seq<EntryInput>, ids: seq<AccountId>) returns (deltas: map<AccountId, int64>)
    requires |ids| == |entries| && WellFormed(entries) && DisjointKinds(entries, ids)
    ensures deltas.Keys == WalletIds(entries, ids)
    ensures forall x | x in deltas :: deltas[x] == Delta(Resolved(entries, ids), x)
  {
    deltas := map[];
    for i := 0 to |entries|
      invariant DeltasOf(deltas, entries, ids, i)
    {
      var entry := entries[i];
      assert WellFormedEntry(entry);
      if entry.account.IsSystem() {
        DeltasSkip(deltas, entries, ids, i);
      } else {
        DeltasAdd(deltas, entries, ids, i);
        var id := ids[i];
        if entry.direction == Credit {
          deltas := AddTo(deltas, id, entry.amountMinor);
        } else {
          deltas := AddTo(deltas, id, -entry.amountMinor);
        }
      }
    }
    assert entries[..|entries|] == entries && ids[..|ids|] == ids;
    assert Resolved(entries, ids)[..|entries|] == Resolved(entries, ids);
  }

  // ----- the two balances ----------------------------------------------------

  /** ledger_account_balances: exact signed sum of the journal on an account. */
  function JournalSum(journal: seq<Posting>, x: AccountId): int {
    if journal == [] then 0
    else JournalSum(journal[..|journal| - 1], x) + OnAccount(journal[|journal| - 1].entries, x)
  }

  /** What the cache updates of the committed postings add up to. */
  function CacheSum(journal: seq<Posting>, x: AccountId): int {
    if journal == [] then 0
    else CacheSum(journal[..|journal| - 1], x) + Delta(journal[|journal| - 1].entries, x)
  }

  lemma {:induction false} CacheCongruentToJournal(journal: seq<Posting>, x: AccountId)
    ensures Congruent(CacheSum(journal, x), JournalSum(journal, x))
  {
    if journal != [] {
      CacheCongruentToJournal(journal[..|journal| - 1], x);
    }
  }

  lemma {:induction false} NetWithinGross(entries: seq<JournalEntry>, x: AccountId)
    requires forall i | 0 <= i < |entries| :: entries[i].amountMinor > 0
    ensures -GrossOn(entries, x) <= OnAccount(entries, x) <= GrossOn(entries, x)
  {
    if entries != [] {
      NetWithinGross(entries[..|entries| - 1], x);
    }
  }

  /** Appending a posting keeps an exact cache exact if and only if the
      posting's net on that wallet fits int64. */
  lemma CacheStaysExactIff(journal: seq<Posting>, p: Posting, x: AccountId)
    requires CacheSum(journal, x) == JournalSum(journal, x)
    ensures CacheSum(journal + [p], x) == JournalSum(journal + [p], x) <==> InRange(OnAccount(p.entries, x))
  {
    assert (journal + [p])[..|journal|] == journal;
  }

  lemma {:induction false} SmallPostingsKeepCacheExact(journal: seq<Posting>, x: AccountId)
    requires forall i | 0 <= i < |journal| ::
               && GrossOn(journal[i].entries, x) < TWO63
               && (forall k | 0 <= k < |journal[i].entries| :: journal[i].entries[k].amountMinor > 0)
    ensures CacheSum(journal, x) == JournalSum(journal, x)
  {
    if journal != [] {
      var p := journal[|journal| - 1];
      SmallPostingsKeepCacheExact(journal[..|journal| - 1], x);
      NetWithinGross(p.entries, x);
    }
  }

  // ----- atomic application -----------------------------------------------------

  /** Every wallet's cache after a posting; wallets it does not name get delta 0. */
  function PostAccounts(accounts: map<AccountId, Account>, entries: seq<JournalEntry>): map<AccountId, Account> {
    map x | x in accounts ::
      match accounts[x]
      case Wallet(u, c, b) => Wallet(u, c, b + Delta(entries, x))
      case System(code, c) => accounts[x]
  }

  /** bigint addition succeeds on every wallet row. */
  ghost predicate Fits(accounts: map<AccountId, Account>, entries: seq<JournalEntry>) {
    forall x | x in accounts && accounts[x].Wallet? :: InRange(accounts[x].cached + Delta(entries, x))
  }

  predicate KeyUsed(journal: seq<Posting>, key: string) {
    exists i :: 0 <= i < |journal| && journal[i].key == key
  }

  datatype Event =
    | Provisioned(id: AccountId, user: string, currency: string)
    | Posted(posting: Posting)

  ghost predicate HasWallet(accounts: map<AccountId, Account>, user: string, currency: string) {
    exists x :: x in accounts && IsWallet(accounts[x], user, currency)
  }

  predicate IsWallet(a: Account, user: string, currency: string) {
    a.Wallet? && a.user == user && a.currency == currency
  }

  ghost predicate CanApply(db: Db, ev: Event) {
    match ev
    case Provisioned(id, u, c) => id !in db.accounts && !HasWallet(db.accounts, u, c)
    case Posted(p) => Balanced(p.entries) && Fits(db.accounts, p.entries) && !KeyUsed(db.journal, p.key)
  }

  /** The sequential ledger the engine is meant to be: a wallet appears with
      balance zero, or a whole posting happens at once. */
  function Apply(db: Db, ev: Event): Db {
    match ev
    case Provisioned(id, u, c) => db.(accounts := db.accounts[id := Wallet(u, c, 0)])
    case Posted(p) => Db(PostAccounts(db.accounts, p.entries), db.journal + [p])
  }

  ghost function ApplyAll(db: Db, evs: seq<Event>): Option<Db> {
    if evs == [] then Some(db)
    else
      match ApplyAll(db, evs[..|evs| - 1])
      case None => None
      case Some(d) => if CanApply(d, evs[|evs| - 1]) then Some(Apply(d, evs[|evs| - 1])) else None
  }

  // ----- order independence ---------------------------------------------------

  ghost function PostAll(accounts: map<AccountId, Account>, ps: seq<Posting>): Option<map<AccountId, Account>> {
    if ps == [] then Some(accounts)
    else
      match PostAll(accounts, ps[..|ps| - 1])
      case None => None
      case Some(a) =>
        if Fits(a, ps[|ps| - 1].entries) then Some(PostAccounts(a, ps[|ps| - 1].entries)) else None
  }

  lemma {:induction false} PostAllBalances(accounts: map<AccountId, Account>, ps: seq<Posting>)
    requires PostAll(accounts, ps).Some?
    ensures PostAll(accounts, ps).value.Keys == accounts.Keys
    ensures forall x | x in accounts :: PostAll(accounts, ps).value[x] ==
              match accounts[x]
              case Wallet(u, c, b) => Wallet(u, c, b + CacheSum(ps, x))
              case System(_, _) => accounts[x]
  {
    if ps != [] {
      PostAllBalances(accounts, ps[..|ps| - 1]);
    }
  }

  lemma {:induction false} CacheSumRemove(ps: seq<Posting>, j: nat, x: AccountId)
    requires j < |ps|
    ensures CacheSum(ps, x) == CacheSum(ps[..j] + ps[j + 1..], x) + Delta(ps[j].entries, x)
  {
    var n := |ps| - 1;
    if j < n {
      CacheSumRemove(ps[..n], j, x);
      assert ps[..n][..j] + ps[..n][j + 1..] == (ps[..j] + ps[j + 1..])[..n - 1];
    } else {
      assert ps[..j] + ps[j + 1..] == ps[..n];
    }
  }

  lemma FindAndRemove(ps: seq<Posting>, qs: seq<Posting>) returns (j: nat)
    requires ps != [] && multiset(ps) == multiset(qs)
    ensures j < |qs| && qs[j] == ps[|ps| - 1]
    ensures multiset(qs[..j] + qs[j + 1..]) == multiset(ps[..|ps| - 1])
  {
    var p, earlier := ps[|ps| - 1], ps[..|ps| - 1];
    assert ps == earlier + [p];
    assert p in multiset(qs);
    j :| 0 <= j < |qs| && qs[j] == p;
    var rest := qs[..j] + qs[j + 1..];
    assert qs == qs[..j] + [p] + qs[j + 1..];
    assert multiset(rest) == multiset(qs) - multiset{p};
    assert multiset(earlier) == multiset(ps) - multiset{p};
  }

  lemma {:induction false} CacheSumOfMultiset(ps: seq<Posting>, qs: seq<Posting>, x: AccountId)
    requires multiset(ps) == multiset(qs)
    ensures CacheSum(ps, x) == CacheSum(qs, x)
    decreases |ps|
  {
    if ps == [] {
      assert |multiset(qs)| == 0;
    } else {
      var j := FindAndRemove(ps, qs);
      CacheSumOfMultiset(ps[..|ps| - 1], qs[..j] + qs[j + 1..], x);
      CacheSumRemove(qs, j, x);
    }
  }

  /** Any order of the same postings that stays in int64 range ends in the same accounts. */
  lemma AnyOrderSameAccounts(accounts: map<AccountId, Account>, ps: seq<Posting>, qs: seq<Posting>)
    requires multiset(ps) == multiset(qs)
    requires PostAll(accounts, ps).Some? && PostAll(accounts, qs).Some?
    ensures PostAll(accounts, ps) == PostAll(accounts, qs)
  {
    PostAllBalances(accounts, ps);
    PostAllBalances(accounts, qs);
    var a, b := PostAll(accounts, ps).value, PostAll(accounts, qs).value;
    forall x | x in accounts ensures a[x] == b[x] {
      CacheSumOfMultiset(ps, qs, x);
    }
    assert a == b;
  }
}
