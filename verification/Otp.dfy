/** One-time-code challenges: issue, newest-first lookup, attempt counting,
    single use. Store statements may fail, with or without taking effect. */
module Otp {
  import opened Ledger
  import opened Store

  /** sha256 of a code, taken to be collision-free. */
  datatype Hash = Sha256(code: string)

  datatype Challenge = Challenge(
    id: string, recipient: string, purpose: string, codeHash: Hash, createdAt: int, expiresAt: int,
    attempts: nat, maxAttempts: nat, consumedAt: Option<int>)

  datatype Result = Verified | NotFound | Expired | TooMany | CodeInvalid | StoreError

  /** One comparison of a submitted code against challenge `row`. */
  datatype Comparison = Comparison(row: nat, matched: bool, fate: Fate)

  /** The table, and the history of code comparisons. */
  datatype State = State(rows: seq<Challenge>, log: seq<Comparison>)

  predicate Candidate(c: Challenge, recipient: string, purpose: string) {
    c.recipient == recipient && c.purpose == purpose && c.consumedAt.None?
  }

  /** A most recent unconsumed challenge; equal creation times leave a choice. */
  predicate IsActive(rows: seq<Challenge>, recipient: string, purpose: string, i: nat) {
    && i < |rows| && Candidate(rows[i], recipient, purpose)
    && forall j | 0 <= j < |rows| && Candidate(rows[j], recipient, purpose) :: rows[j].createdAt <= rows[i].createdAt
  }

  predicate NoneActive(rows: seq<Challenge>, recipient: string, purpose: string) {
    forall j | 0 <= j < |rows| :: !Candidate(rows[j], recipient, purpose)
  }

  /** What the query for the active challenge comes back with. */
  datatype Lookup = Failed | Empty | At(row: nat)

  datatype Op =
    | Issue(challenge: Challenge, fate: Fate)
    | Verify(recipient: string, purpose: string, code: string, now: int, active: Lookup, fate: Fate)

  /** What an operation may find: fresh challenges start unattempted; the lookup
      returns an active row when there is one. */
  predicate Possible(s: State, op: Op) {
    match op
    case Issue(c, _) =>
      c.attempts == 0 && c.consumedAt.None? && forall j | 0 <= j < |s.rows| :: s.rows[j].id != c.id
    case Verify(recipient, purpose, _, _, At(i), _) => IsActive(s.rows, recipient, purpose, i)
    case Verify(recipient, purpose, _, _, Empty, _) => NoneActive(s.rows, recipient, purpose)
    case Verify(_, _, _, _, Failed, _) => true
  }

  /** Whether a verification compares the code at all. */
  predicate Compares(c: Challenge, now: int) {
    now <= c.expiresAt && c.attempts < c.maxAttempts
  }

  function Marked(c: Challenge, matched: bool, now: int, fate: Fate): Challenge {
    if fate.Lost? then c
    else if matched then c.(consumedAt := Some(now))
    else c.(attempts := c.attempts + 1)
  }

  function Do(s: State, op: Op): State
    requires Possible(s, op)
  {
    match op
    case Issue(c, fate) => if fate.Lost? then s else s.(rows := s.rows + [c])
    case Verify(_, _, _, _, Failed, _) => s
    case Verify(_, _, _, _, Empty, _) => s
    case Verify(_, _, code, now, At(i), fate) =>
      var c := s.rows[i];
      if !Compares(c, now) then s
      else
        var matched := c.codeHash == Sha256(code);
        State(s.rows[i := Marked(c, matched, now, fate)], s.log + [Comparison(i, matched, fate)])
  }

  function ResultOf(s: State, op: Op): Result
    requires Possible(s, op) && op.Verify?
  {
    match op.active
    case Failed => StoreError
    case Empty => NotFound
    case At(i) =>
      var c := s.rows[i];
      if op.now > c.expiresAt then Expired
      else if c.attempts >= c.maxAttempts then TooMany
      else if c.codeHash != Sha256(op.code) then CodeInvalid
      else if op.fate.Done? then Verified
      else StoreError
  }

  class Service {
    var rows: seq<Challenge>
    ghost var log: seq<Comparison>
    const maxAttempts: nat
    const ttl: int

    constructor (maxAttempts: nat, ttl: int)
      ensures rows == [] && log == [] && this.maxAttempts == maxAttempts && this.ttl == ttl
    {
      this.maxAttempts, this.ttl := maxAttempts, ttl;
      rows, log := [], [];
    }

    ghost function View(): State
      reads this
    {
      State(rows, log)
    }

    /** Persist the challenge's hash; the primary key rejects a reused id. */
    method Issue(id: string, recipient: string, purpose: string, code: string, now: int, createdAt: int, fate: Fate)
      returns (ok: bool)
      modifies this
      ensures var c := Challenge(id, recipient, purpose, Sha256(code), createdAt, now + ttl, 0, maxAttempts, None);
        if exists j :: 0 <= j < |old(rows)| && old(rows)[j].id == id then View() == old(View()) && !ok
        else View() == Do(old(View()), Op.Issue(c, fate)) && ok == fate.Done?
             && rows == (if fate.Lost? then old(rows) else old(rows) + [c]) && log == old(log)
    {
      if exists j :: 0 <= j < |rows| && rows[j].id == id {
        return false;
      }
      var c := Challenge(id, recipient, purpose, Sha256(code), createdAt, now + ttl, 0, maxAttempts, None);
      if !fate.Lost? {
        rows := rows + [c];
      }
      ok := fate.Done?;
    }

    /** ORDER BY created_at DESC LIMIT 1 over the unconsumed rows. */
    method Active(recipient: string, purpose: string, ok: bool) returns (best: Lookup)
      ensures best.Failed? <==> !ok
      ensures best.At? ==> IsActive(rows, recipient, purpose, best.row)
      ensures best.Empty? ==> NoneActive(rows, recipient, purpose)
    {
      if !ok {
        return Failed;
      }
      best := Empty;
      for i := 0 to |rows|
        invariant !best.Failed?
        invariant best.At? ==> best.row < i && IsActive(rows[..i], recipient, purpose, best.row)
        invariant best.Empty? ==> NoneActive(rows[..i], recipient, purpose)
      {
        assert rows[..i + 1] == rows[..i] + [rows[i]];
        if Candidate(rows[i], recipient, purpose)
           && (best.Empty? || rows[best.row].createdAt <= rows[i].createdAt) {
          best := At(i);
        }
      }
      assert rows[..|rows|] == rows;
    }

    /** ok: the lookup succeeds; fate: what becomes of the write. */
    method Verify(recipient: string, purpose: string, code: string, now: int, ok: bool, fate: Fate)
      returns (r: Result, ghost op: Op)
      modifies this
      ensures op.Verify? && op == Op.Verify(recipient, purpose, code, now, op.active, fate) && Possible(old(View()), op)
      ensures op.active.Failed? <==> !ok
      ensures op.active.At? ==>
        && op.active.row < |old(rows)|
        && (forall j | 0 <= j < |old(rows)| && old(rows)[j].recipient == recipient && old(rows)[j].purpose == purpose
                       && old(rows)[j].consumedAt.None? ::
              old(rows)[j].createdAt <= old(rows)[op.active.row].createdAt)
        && old(rows)[op.active.row].recipient == recipient && old(rows)[op.active.row].purpose == purpose
        && old(rows)[op.active.row].consumedAt.None?
      ensures View() == Do(old(View()), op) && r == ResultOf(old(View()), op)
    {
      var active := Active(recipient, purpose, ok);
      op := Op.Verify(recipient, purpose, code, now, active, fate);
      if active.Failed? {
        return StoreError, op;
      }
      if active.Empty? {
        return NotFound, op;
      }
      var i := active.row;
      var c := rows[i];
      if now > c.expiresAt {
        return Expired, op;
      }
      if c.attempts >= c.maxAttempts {
        return TooMany, op;
      }
      log := log + [Comparison(i, c.codeHash == Sha256(code), fate)];
      if c.codeHash != Sha256(code) {
        // The increment's error is ignored.
        if !fate.Lost? {
          rows := rows[i := c.(attempts := c.attempts + 1)];
        }
        return CodeInvalid, op;
      }
      if !fate.Lost? {
        rows := rows[i := c.(consumedAt := Some(now))];
      }
      r := if fate.Done? then Verified else StoreError;
    }
  }

  // ----- the guess budget -----------------------------------------------------------

  function Comparisons(log: seq<Comparison>, i: nat): nat {
    if log == [] then 0
    else Comparisons(log[..|log| - 1], i) + if log[|log| - 1].row == i then 1 else 0
  }

  /** Comparisons whose write was lost. */
  function LostWrites(log: seq<Comparison>, i: nat): nat {
    if log == [] then 0
    else LostWrites(log[..|log| - 1], i) + if log[|log| - 1].row == i && log[|log| - 1].fate.Lost? then 1 else 0
  }

  /** Comparisons that matched and whose consumption was acknowledged. */
  function Successes(log: seq<Comparison>, i: nat): nat {
    if log == [] then 0
    else Successes(log[..|log| - 1], i)
         + if log[|log| - 1].row == i && log[|log| - 1].matched && log[|log| - 1].fate.Done? then 1 else 0
  }

  function Used(c: Challenge): nat {
    c.attempts + if c.consumedAt.Some? then 1 else 0
  }

  /** Every comparison is accounted for by the row or by a lost write. */
  ghost predicate RowOk(s: State, i: nat)
    requires i < |s.rows|
  {
    && Used(s.rows[i]) <= s.rows[i].maxAttempts
    && Comparisons(s.log, i) == Used(s.rows[i]) + LostWrites(s.log, i)
    && Successes(s.log, i) <= if s.rows[i].consumedAt.Some? then 1 else 0
  }

  ghost predicate Ok(s: State) {
    && (forall k | 0 <= k < |s.log| :: s.log[k].row < |s.rows|)
    && (forall i | 0 <= i < |s.rows| :: RowOk(s, i))
  }

  lemma {:induction false} UnseenRow(log: seq<Comparison>, i: nat)
    requires forall k | 0 <= k < |log| :: log[k].row != i
    ensures Comparisons(log, i) == LostWrites(log, i) == Successes(log, i) == 0
  {
    if log != [] { UnseenRow(log[..|log| - 1], i); }
  }

  lemma Counted(log: seq<Comparison>, e: Comparison, i: nat)
    ensures Comparisons(log + [e], i) == Comparisons(log, i) + (if e.row == i then 1 else 0)
    ensures LostWrites(log + [e], i) == LostWrites(log, i) + (if e.row == i && e.fate.Lost? then 1 else 0)
    ensures Successes(log + [e], i) == Successes(log, i) + (if e.row == i && e.matched && e.fate.Done? then 1 else 0)
  {
    var l := log + [e];
    assert l[..|l| - 1] == log && l[|l| - 1] == e;
  }

  lemma IssueKeepsOk(s: State, c: Challenge)
    requires Ok(s) && c.attempts == 0 && c.consumedAt.None?
    ensures Ok(s.(rows := s.rows + [c]))
  {
    var t := s.(rows := s.rows + [c]);
    forall i | 0 <= i < |t.rows| ensures RowOk(t, i) {
      if i < |s.rows| {
        assert RowOk(s, i);
      } else {
        UnseenRow(t.log, i);
      }
    }
  }

  lemma ComparisonKeepsOk(s: State, i: nat, now: int, matched: bool, fate: Fate)
    requires Ok(s) && i < |s.rows| && s.rows[i].consumedAt.None? && Compares(s.rows[i], now)
    ensures Ok(State(s.rows[i := Marked(s.rows[i], matched, now, fate)], s.log + [Comparison(i, matched, fate)]))
  {
    var e := Comparison(i, matched, fate);
    var t := State(s.rows[i := Marked(s.rows[i], matched, now, fate)], s.log + [e]);
    forall k | 0 <= k < |t.rows| ensures RowOk(t, k) {
      assert RowOk(s, k);
      Counted(s.log, e, k);
    }
  }

  lemma OpKeepsOk(s: State, op: Op)
    requires Ok(s) && Possible(s, op)
    ensures Ok(Do(s, op))
  {
    match op
    case Issue(c, fate) => if !fate.Lost? { IssueKeepsOk(s, c); }
    case Verify(_, _, code, now, active, fate) =>
      if active.At? && Compares(s.rows[active.row], now) {
        ComparisonKeepsOk(s, active.row, now, s.rows[active.row].codeHash == Sha256(code), fate);
      }
  }

  ghost predicate ValidRun(s: State, ops: seq<Op>)
    decreases |ops|
  {
    ops == [] || (Possible(s, ops[0]) && ValidRun(Do(s, ops[0]), ops[1..]))
  }

  ghost function Run(s: State, ops: seq<Op>): State
    requires ValidRun(s, ops)
    decreases |ops|
  {
    if ops == [] then s else Run(Do(s, ops[0]), ops[1..])
  }

  lemma {:induction false} RunKeepsOk(s: State, ops: seq<Op>)
    requires Ok(s) && ValidRun(s, ops)
    ensures Ok(Run(s, ops))
    decreases |ops|
  {
    if ops != [] {
      OpKeepsOk(s, ops[0]);
      RunKeepsOk(Do(s, ops[0]), ops[1..]);
    }
  }

  /** What each answer says: success consumes an unexpired challenge with guesses left
      whose code was submitted, and is logged as such; a refusal without comparison
      changes nothing. */
  lemma AnswerMeans(s: State, op: Op)
    requires Possible(s, op) && op.Verify?
    ensures var r, t := ResultOf(s, op), Do(s, op);
      && (r == NotFound <==> !op.active.Failed? && NoneActive(s.rows, op.recipient, op.purpose))
      && (op.active.Failed? ==> r == StoreError)
      && (op.active.Failed? || r in {NotFound, Expired, TooMany} <==> t.log == s.log)
      && (t.log == s.log ==> t == s)
      && (r == Verified <==> op.active.At? && t.log == s.log + [Comparison(op.active.row, true, Done)])
      && (r == Verified ==>
            var c := s.rows[op.active.row];
            && c.codeHash == Sha256(op.code) && op.now <= c.expiresAt && c.attempts < c.maxAttempts
            && t.rows == s.rows[op.active.row := c.(consumedAt := Some(op.now))])
  {
    if op.active.At? {
      var i := op.active.row;
      assert Candidate(s.rows[i], op.recipient, op.purpose);
      if Compares(s.rows[i], op.now) {
        var e := Comparison(i, s.rows[i].codeHash == Sha256(op.code), op.fate);
        assert Do(s, op).log == s.log + [e];
        assert (s.log + [e])[|s.log|] == e;
        assert (s.log + [Comparison(i, true, Done)])[|s.log|] == Comparison(i, true, Done);
      }
    }
  }

  /** Exactly when each answer is given, and what it does to the challenge it looked at:
      expiry before attempts, attempts before the code, and a stored consumption before
      success. */
  lemma AnswersIff(s: State, op: Op)
    requires Possible(s, op) && op.Verify? && op.active.At?
    ensures var i := op.active.row;
      var c, r, t := s.rows[i], ResultOf(s, op), Do(s, op);
      && (r == Expired <==> op.now > c.expiresAt)
      && (r == TooMany <==> op.now <= c.expiresAt && c.attempts >= c.maxAttempts)
      && (r == CodeInvalid <==>
            op.now <= c.expiresAt && c.attempts < c.maxAttempts && c.codeHash != Sha256(op.code))
      && (r == Verified <==>
            op.now <= c.expiresAt && c.attempts < c.maxAttempts && c.codeHash == Sha256(op.code) && op.fate.Done?)
      && (r == StoreError <==>
            op.now <= c.expiresAt && c.attempts < c.maxAttempts && c.codeHash == Sha256(op.code) && !op.fate.Done?)
      && (r in {Expired, TooMany} || op.fate.Lost? ==> t.rows == s.rows)
      && (r == CodeInvalid && !op.fate.Lost? ==> t.rows == s.rows[i := c.(attempts := c.attempts + 1)])
      && (r in {Verified, StoreError} && !op.fate.Lost? ==> t.rows == s.rows[i := c.(consumedAt := Some(op.now))])
  {
  }

  /** Each challenge allows its maximum number of guesses, plus exactly one more for
      every write that was lost, and at most one success, over any sequence of
      issues and verifications. */
  lemma GuessBudget(ops: seq<Op>, i: nat)
    requires ValidRun(State([], []), ops) && i < |Run(State([], []), ops).rows|
    ensures var t := Run(State([], []), ops);
      && Used(t.rows[i]) <= t.rows[i].maxAttempts
      && Comparisons(t.log, i) == Used(t.rows[i]) + LostWrites(t.log, i)
      && Comparisons(t.log, i) <= t.rows[i].maxAttempts + LostWrites(t.log, i)
      && Successes(t.log, i) <= 1
  {
    RunKeepsOk(State([], []), ops);
    assert RowOk(Run(State([], []), ops), i);
  }

  // ----- per recipient and purpose --------------------------------------------------

  predicate For(c: Challenge, recipient: string, purpose: string) {
    c.recipient == recipient && c.purpose == purpose
  }

  function IssuedFor(rows: seq<Challenge>, recipient: string, purpose: string): nat {
    if rows == [] then 0
    else IssuedFor(rows[..|rows| - 1], recipient, purpose) + if For(rows[|rows| - 1], recipient, purpose) then 1 else 0
  }

  /** Sum over the challenges for a recipient and purpose. */
  function ComparisonsFor(rows: seq<Challenge>, log: seq<Comparison>, recipient: string, purpose: string): nat {
    if rows == [] then 0
    else ComparisonsFor(rows[..|rows| - 1], log, recipient, purpose)
         + if For(rows[|rows| - 1], recipient, purpose) then Comparisons(log, |rows| - 1) else 0
  }

  function LostFor(rows: seq<Challenge>, log: seq<Comparison>, recipient: string, purpose: string): nat {
    if rows == [] then 0
    else LostFor(rows[..|rows| - 1], log, recipient, purpose)
         + if For(rows[|rows| - 1], recipient, purpose) then LostWrites(log, |rows| - 1) else 0
  }

  lemma {:induction false} BudgetOver(s: State, n: nat, cap: nat, recipient: string, purpose: string)
    requires n <= |s.rows| && Ok(s) && forall i | 0 <= i < |s.rows| :: s.rows[i].maxAttempts <= cap
    ensures ComparisonsFor(s.rows[..n], s.log, recipient, purpose)
         <= cap * IssuedFor(s.rows[..n], recipient, purpose) + LostFor(s.rows[..n], s.log, recipient, purpose)
  {
    if n > 0 {
      BudgetOver(s, n - 1, cap, recipient, purpose);
      assert s.rows[..n][..n - 1] == s.rows[..n - 1];
      assert RowOk(s, n - 1);
      var issued := IssuedFor(s.rows[..n - 1], recipient, purpose);
      assert cap * (issued + 1) == cap * issued + cap;
    }
  }

  /** All guesses against a recipient and purpose are bounded by the codes issued for
      it, although consuming the newest challenge re-exposes an older one. */
  lemma RecipientBudget(ops: seq<Op>, cap: nat, recipient: string, purpose: string)
    requires ValidRun(State([], []), ops)
    requires forall i | 0 <= i < |Run(State([], []), ops).rows| :: Run(State([], []), ops).rows[i].maxAttempts <= cap
    ensures var t := Run(State([], []), ops);
      ComparisonsFor(t.rows, t.log, recipient, purpose)
        <= cap * IssuedFor(t.rows, recipient, purpose) + LostFor(t.rows, t.log, recipient, purpose)
  {
    var t := Run(State([], []), ops);
    RunKeepsOk(State([], []), ops);
    BudgetOver(t, |t.rows|, cap, recipient, purpose);
    assert t.rows[..|t.rows|] == t.rows;
  }
}
