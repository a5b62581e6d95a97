/** The migration runner: files in lexical order, each executed and recorded in one
    transaction, skipped when recorded with the same checksum. A run may stop at any
    file, before its transaction commits or after. */
module Migrate {
  import opened Store

  datatype File = File(name: string, content: string)

  /** sha256 of a file, taken to be collision-free. */
  datatype Digest = Sha256(content: string)

  /** A schema_migrations row. */
  datatype Row = Row(name: string, sum: Digest)

  /** The bookkeeping table, and the scripts whose effects are in the database. */
  datatype Db = Db(recorded: seq<Row>, executed: seq<File>)

  const MARKER := "-- migrate:no-transaction"

  predicate MatchesAt(text: string, part: string, i: nat) {
    i + |part| <= |text| && text[i..i + |part|] == part
  }

  predicate Contains(text: string, part: string) {
    exists i: nat :: i <= |text| && MatchesAt(text, part, i)
  }

  ghost predicate DistinctNames(files: seq<File>) {
    forall i, j | 0 <= i < j < |files| :: files[i].name != files[j].name
  }

  function RowOf(f: File): Row { Row(f.name, Sha256(f.content)) }

  function RowsOf(files: seq<File>): (r: seq<Row>)
    ensures |r| == |files|
  {
    seq(|files|, i requires 0 <= i < |files| => RowOf(files[i]))
  }

  function Applied(rows: seq<Row>): map<string, Digest> {
    if rows == [] then map[]
    else Applied(rows[..|rows| - 1])[rows[|rows| - 1].name := rows[|rows| - 1].sum]
  }

  /** How file i's transaction ends; a crash before or after its commit is a lost or an
      errored write. */
  function FateOf(fates: seq<Fate>, i: nat): Fate {
    if i < |fates| then fates[i] else Done
  }

  /** The rest of a run from file i on, given the map loaded at its start. */
  function Continue(db: Db, applied: map<string, Digest>, files: seq<File>, fates: seq<Fate>, i: nat): (Db, bool)
    requires i <= |files|
    decreases |files| - i
  {
    if i == |files| then (db, true)
    else
      var f := files[i];
      if f.name in applied then
        if applied[f.name] == Sha256(f.content) then Continue(db, applied, files, fates, i + 1) else (db, false)
      else if Contains(f.content, MARKER) || FateOf(fates, i).Lost? then (db, false)
      else
        var db' := Db(db.recorded + [RowOf(f)], db.executed + [f]);
        if FateOf(fates, i).Done? then Continue(db', applied, files, fates, i + 1) else (db', false)
  }

  function RunOnce(db: Db, files: seq<File>, fates: seq<Fate>): (Db, bool) {
    Continue(db, Applied(db.recorded), files, fates, 0)
  }

  class Runner {
    var recorded: seq<Row>
    var executed: seq<File>

    ghost function View(): Db
      reads this
    {
      Db(recorded, executed)
    }

    method LoadApplied() returns (out: map<string, Digest>)
      ensures out == Applied(recorded)
    {
      out := map[];
      for i := 0 to |recorded|
        invariant out == Applied(recorded[..i])
      {
        assert recorded[..i + 1][..i] == recorded[..i];
        out := out[recorded[i].name := recorded[i].sum];
      }
      assert recorded[..|recorded|] == recorded;
    }

    /** Execute and record in one transaction. */
    method ApplyOne(f: File, sum: Digest, fate: Fate) returns (ok: bool)
      modifies this
      ensures if Contains(f.content, MARKER) || fate.Lost? then View() == old(View()) && !ok
              else View() == Db(old(recorded) + [Row(f.name, sum)], old(executed) + [f]) && ok == fate.Done?
    {
      if Contains(f.content, MARKER) {
        return false;
      }
      if fate.Lost? {
        return false;
      }
      executed := executed + [f];
      recorded := recorded + [Row(f.name, sum)];
      ok := fate.Done?;
    }

    method Migrate(files: seq<File>, fates: seq<Fate>) returns (ok: bool)
      modifies this
      ensures (View(), ok) == RunOnce(old(View()), files, fates)
    {
      var applied := LoadApplied();
      for i := 0 to |files|
        invariant Continue(View(), applied, files, fates, i) == RunOnce(old(View()), files, fates)
      {
        var f := files[i];
        var sum := Sha256(f.content);
        if f.name in applied {
          if applied[f.name] != sum {
            return false;
          }
        } else {
          var done := ApplyOne(f, sum, FateOf(fates, i));
          if !done {
            return false;
          }
        }
      }
      ok := true;
    }
  }

  // ----- the loaded map -------------------------------------------------------------

  lemma {:induction false} AppliedRows(rows: seq<Row>, name: string)
    ensures name in Applied(rows) <==> exists i :: 0 <= i < |rows| && rows[i].name == name
  {
    if rows != [] {
      var n := |rows| - 1;
      AppliedRows(rows[..n], name);
      if i :| 0 <= i < n && rows[..n][i].name == name { assert rows[i].name == name; }
    }
  }

  lemma {:induction false} AppliedPrefix(files: seq<File>, k: nat, i: nat)
    requires DistinctNames(files) && k <= |files| && i < |files|
    ensures var m := Applied(RowsOf(files[..k]));
      (files[i].name in m <==> i < k) && (i < k ==> m[files[i].name] == Sha256(files[i].content))
  {
    if k > 0 {
      AppliedPrefix(files, k - 1, i);
      assert RowsOf(files[..k])[..k - 1] == RowsOf(files[..k - 1]);
      assert files[..k][k - 1] == files[k - 1];
    }
  }

  // ----- crash-resumable, exactly once, in order --------------------------------------

  /** The first k files, executed and recorded, and nothing else. */
  ghost predicate IsPrefix(db: Db, files: seq<File>, k: nat) {
    k <= |files| && db.executed == files[..k] && db.recorded == RowsOf(files[..k])
  }

  lemma {:induction false} ContinueFromPrefix(db: Db, files: seq<File>, fates: seq<Fate>, k0: nat, k: nat, i: nat)
    returns (n: nat)
    requires DistinctNames(files) && k0 <= |files| && i <= |files|
    requires IsPrefix(db, files, k) && k == if i < k0 then k0 else i
    ensures var (t, ok) := Continue(db, Applied(RowsOf(files[..k0])), files, fates, i);
      && k <= n && IsPrefix(t, files, n)
      && (ok ==> n == |files|)
      && (k0 == |files| ==> ok && t == db)
    decreases |files| - i
  {
    n := k;
    if i < |files| {
      AppliedPrefix(files, k0, i);
      if i < k0 {
        n := ContinueFromPrefix(db, files, fates, k0, k, i + 1);
      } else if !Contains(files[i].content, MARKER) && !FateOf(fates, i).Lost? {
        var db' := Db(db.recorded + [RowOf(files[i])], db.executed + [files[i]]);
        assert files[..i + 1] == files[..i] + [files[i]];
        assert RowsOf(files[..i + 1]) == RowsOf(files[..i]) + [RowOf(files[i])];
        n := i + 1;
        if FateOf(fates, i).Done? {
          n := ContinueFromPrefix(db', files, fates, k0, i + 1, i + 1);
        }
      }
    }
  }

  /** Any number of runs over one file set, each stopping wherever its fates say. */
  function Runs(db: Db, files: seq<File>, scripts: seq<seq<Fate>>): Db {
    if scripts == [] then db
    else RunOnce(Runs(db, files, scripts[..|scripts| - 1]), files, scripts[|scripts| - 1]).0
  }

  lemma OneRun(db: Db, files: seq<File>, fates: seq<Fate>, k: nat) returns (n: nat)
    requires DistinctNames(files) && IsPrefix(db, files, k)
    ensures k <= n && IsPrefix(RunOnce(db, files, fates).0, files, n)
    ensures RunOnce(db, files, fates).1 ==> n == |files|
    ensures k == |files| ==> RunOnce(db, files, fates) == (db, true)
  {
    n := ContinueFromPrefix(db, files, fates, k, k, 0);
  }

  lemma {:induction false} RunsKeepPrefix(files: seq<File>, scripts: seq<seq<Fate>>) returns (k: nat)
    requires DistinctNames(files)
    ensures IsPrefix(Runs(Db([], []), files, scripts), files, k)
  {
    if scripts == [] {
      k := 0;
      assert files[..0] == [];
    } else {
      var k0 := RunsKeepPrefix(files, scripts[..|scripts| - 1]);
      k := OneRun(Runs(Db([], []), files, scripts[..|scripts| - 1]), files, scripts[|scripts| - 1], k0);
    }
  }

  /** However often the runner is restarted and wherever it stopped, what has been
      executed is a prefix of the sorted files, none twice, recorded exactly; a run
      that succeeds has completed all of them; and one more run changes nothing. */
  lemma CrashResumable(files: seq<File>, scripts: seq<seq<Fate>>, last: seq<Fate>, again: seq<Fate>)
    requires DistinctNames(files)
    ensures var db := Runs(Db([], []), files, scripts);
      && db.executed <= files
      && db.recorded == RowsOf(db.executed)
      && var (t, ok) := RunOnce(db, files, last);
         && db.executed <= t.executed <= files
         && (ok ==> t.executed == files && t.recorded == RowsOf(files) && RunOnce(t, files, again) == (t, true))
  {
    var k := RunsKeepPrefix(files, scripts);
    var db := Runs(Db([], []), files, scripts);
    var n := OneRun(db, files, last, k);
    var t := RunOnce(db, files, last).0;
    assert files[..k] <= files[..n];
    if RunOnce(db, files, last).1 {
      assert files[..n] == files;
      var z := OneRun(t, files, again, n);
    }
  }

  // ----- edited files ---------------------------------------------------------------

  /** What a run needs of one file: unchanged if recorded, else a transaction that
      is supported and commits. */
  predicate FileOk(applied: map<string, Digest>, f: File, fate: Fate) {
    if f.name in applied then applied[f.name] == Sha256(f.content)
    else !Contains(f.content, MARKER) && fate.Done?
  }

  /** A run succeeds if and only if every file is fine on its own. */
  lemma {:induction false} SucceedsIff(db: Db, applied: map<string, Digest>, files: seq<File>, fates: seq<Fate>, i: nat)
    requires i <= |files|
    ensures Continue(db, applied, files, fates, i).1 <==>
      forall e | i <= e < |files| :: FileOk(applied, files[e], FateOf(fates, e))
    decreases |files| - i
  {
    if i < |files| {
      var f := files[i];
      SucceedsIff(db, applied, files, fates, i + 1);
      SucceedsIff(Db(db.recorded + [RowOf(f)], db.executed + [f]), applied, files, fates, i + 1);
    }
  }

  lemma {:induction false} UniqueRow(rows: seq<Row>, k: nat)
    requires k < |rows| && forall i, j | 0 <= i < j < |rows| :: rows[i].name != rows[j].name
    ensures rows[k].name in Applied(rows) && Applied(rows)[rows[k].name] == rows[k].sum
  {
    var n := |rows| - 1;
    if k < n {
      assert rows[..n][k] == rows[k];
      UniqueRow(rows[..n], k);
    }
  }

  /** A run over a directory in which an applied file was edited never succeeds. */
  lemma EditedNeverSucceeds(db: Db, files: seq<File>, fates: seq<Fate>, k: nat, e: nat)
    requires k < |db.recorded| && forall i, j | 0 <= i < j < |db.recorded| :: db.recorded[i].name != db.recorded[j].name
    requires e < |files| && files[e].name == db.recorded[k].name && Sha256(files[e].content) != db.recorded[k].sum
    ensures !RunOnce(db, files, fates).1
  {
    UniqueRow(db.recorded, k);
    SucceedsIff(db, Applied(db.recorded), files, fates, 0);
    assert !FileOk(Applied(db.recorded), files[e], FateOf(fates, e));
  }

  // ----- changing directories ----------------------------------------------------------

  /** The bookkeeping lists exactly what was executed, no name twice, nothing marked
      as needing to run outside a transaction. */
  ghost predicate Faithful(db: Db) {
    && db.recorded == RowsOf(db.executed)
    && DistinctNames(db.executed)
    && forall i | 0 <= i < |db.executed| :: !Contains(db.executed[i].content, MARKER)
  }

  lemma {:induction false} ContinueFaithful(db: Db, db0: Db, files: seq<File>, fates: seq<Fate>, i: nat)
    requires DistinctNames(files) && i <= |files| && Faithful(db) && db0.recorded <= db.recorded
    requires forall k | |db0.recorded| <= k < |db.recorded| ::
      exists j :: 0 <= j < i && files[j].name == db.recorded[k].name
    ensures Faithful(Continue(db, Applied(db0.recorded), files, fates, i).0)
    ensures db.executed <= Continue(db, Applied(db0.recorded), files, fates, i).0.executed
    decreases |files| - i
  {
    if i < |files| {
      var f := files[i];
      var applied := Applied(db0.recorded);
      AppliedRows(db0.recorded, f.name);
      if f.name in applied {
        ContinueFaithful(db, db0, files, fates, i + 1);
      } else if !Contains(f.content, MARKER) && !FateOf(fates, i).Lost? {
        var db' := Db(db.recorded + [RowOf(f)], db.executed + [f]);
        forall k | 0 <= k < |db.executed| ensures db.executed[k].name != f.name {
          assert db.recorded[k] == RowOf(db.executed[k]);
          if k < |db0.recorded| {
            assert db0.recorded[k] == db.recorded[k];
          } else {
            var j :| 0 <= j < i && files[j].name == db.recorded[k].name;
          }
        }
        assert RowsOf(db'.executed) == db'.recorded;
        ContinueFaithful(db', db0, files, fates, i + 1);
      }
    }
  }

  lemma RunKeepsFaithful(db: Db, files: seq<File>, fates: seq<Fate>)
    requires Faithful(db) && DistinctNames(files)
    ensures Faithful(RunOnce(db, files, fates).0)
    ensures db.executed <= RunOnce(db, files, fates).0.executed
  {
    ContinueFaithful(db, db, files, fates, 0);
  }

  /** One run: the directory as it is then, and how its transactions end. */
  datatype Attempt = Attempt(files: seq<File>, fates: seq<Fate>)

  function RunAll(db: Db, attempts: seq<Attempt>): Db {
    if attempts == [] then db
    else
      var last := attempts[|attempts| - 1];
      RunOnce(RunAll(db, attempts[..|attempts| - 1]), last.files, last.fates).0
  }

  /** Over any sequence of runs from the empty database, with files added, removed,
      renamed or edited and runs cut short in between, no name is executed twice,
      the table is the exact record, and what was executed stays. */
  lemma {:induction false} NeverTwice(attempts: seq<Attempt>, k: nat)
    requires forall i | 0 <= i < |attempts| :: DistinctNames(attempts[i].files)
    requires k <= |attempts|
    ensures var db := RunAll(Db([], []), attempts);
      && DistinctNames(db.executed) && db.recorded == RowsOf(db.executed)
      && (forall i | 0 <= i < |db.executed| :: !Contains(db.executed[i].content, MARKER))
      && RunAll(Db([], []), attempts[..k]).executed <= db.executed
  {
    if attempts == [] {
      assert attempts[..k] == attempts;
    } else {
      var earlier, last := attempts[..|attempts| - 1], attempts[|attempts| - 1];
      assert DistinctNames(last.files);
      NeverTwice(earlier, if k < |attempts| then k else |earlier|);
      RunKeepsFaithful(RunAll(Db([], []), earlier), last.files, last.fates);
      if k < |attempts| {
        assert attempts[..k] == earlier[..k];
      } else {
        assert attempts[..k] == attempts;
      }
    }
  }

  // ----- exactly what a run executes ----------------------------------------------------

  /** The files from i to n whose names are not in the map, in order. */
  function Unrecorded(files: seq<File>, applied: map<string, Digest>, i: nat, n: nat): seq<File>
    requires i <= n <= |files|
    decreases n - i
  {
    if i == n then []
    else (if files[i].name in applied then [] else [files[i]]) + Unrecorded(files, applied, i + 1, n)
  }

  /** n is the first file that is not fine on its own, or the end. */
  ghost predicate StopsAt(applied: map<string, Digest>, files: seq<File>, fates: seq<Fate>, n: nat) {
    && n <= |files| && (forall e | 0 <= e < n :: FileOk(applied, files[e], FateOf(fates, e)))
    && (n < |files| ==> !FileOk(applied, files[n], FateOf(fates, n)))
  }

  /** The file a run stopped at, if its commit took effect and was reported as failed. */
  function Unreported(applied: map<string, Digest>, files: seq<File>, fates: seq<Fate>, n: nat): seq<File> {
    if n < |files| && files[n].name !in applied && !Contains(files[n].content, MARKER)
       && FateOf(fates, n).DoneButErrored?
    then [files[n]] else []
  }

  lemma {:induction false} ExecutesFrom(db: Db, files: seq<File>, fates: seq<Fate>, applied: map<string, Digest>,
                                        i: nat, n: nat)
    requires StopsAt(applied, files, fates, n) && i <= n
    ensures Continue(db, applied, files, fates, i).0.executed
         == db.executed + (Unrecorded(files, applied, i, n) + Unreported(applied, files, fates, n))
    decreases n - i
  {
    if i < n {
      var f := files[i];
      assert FileOk(applied, f, FateOf(fates, i));
      var rest := Unrecorded(files, applied, i + 1, n) + Unreported(applied, files, fates, n);
      if f.name in applied {
        ExecutesFrom(db, files, fates, applied, i + 1, n);
        assert Unrecorded(files, applied, i, n) == Unrecorded(files, applied, i + 1, n);
      } else {
        ExecutesFrom(Db(db.recorded + [RowOf(f)], db.executed + [f]), files, fates, applied, i + 1, n);
        assert db.executed + [f] + rest == db.executed + ([f] + rest);
        assert [f] + rest == Unrecorded(files, applied, i, n) + Unreported(applied, files, fates, n);
      }
    }
  }

  /** A run executes exactly the unrecorded files before the first one that was edited, is
      marked, or does not commit; that one too only if its commit took effect unreported;
      and nothing after it. */
  lemma ExecutesExactly(db: Db, files: seq<File>, fates: seq<Fate>) returns (n: nat)
    ensures StopsAt(Applied(db.recorded), files, fates, n)
    ensures RunOnce(db, files, fates).0.executed
         == db.executed + (Unrecorded(files, Applied(db.recorded), 0, n)
                           + Unreported(Applied(db.recorded), files, fates, n))
  {
    n := FirstStop(Applied(db.recorded), files, fates, 0);
    ExecutesFrom(db, files, fates, Applied(db.recorded), 0, n);
  }

  lemma {:induction false} FirstStop(applied: map<string, Digest>, files: seq<File>, fates: seq<Fate>, i: nat)
    returns (n: nat)
    requires i <= |files| && forall e | 0 <= e < i :: FileOk(applied, files[e], FateOf(fates, e))
    ensures StopsAt(applied, files, fates, n)
    decreases |files| - i
  {
    n := i;
    if i < |files| && FileOk(applied, files[i], FateOf(fates, i)) {
      n := FirstStop(applied, files, fates, i + 1);
    }
  }
}
