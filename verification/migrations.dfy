/** The migration planner: the declared migrations, the history table of
    applied ones, the forward plan of `migrate`, the reverse plan of
    `rollback`, and the status summary. A schema step (`up` or `down`) is an
    input saying whether it completes; a step that raises aborts the run. */
module Migrations {
  import opened Wrappers
  import opened Seqs
  import opened Text

  /** A declared migration; the history table stores the same three columns. */
  datatype Migration = Migration(version: string, name: string, description: string)

  /** The migrations the manager declares, in order. */
  const Declared: seq<Migration> := [
    Migration("001", "initial_schema", "Create initial database schema"),
    Migration("002", "add_metrics_table", "Add metrics table for monitoring data")]

  function Versions(ms: seq<Migration>): (r: seq<string>)
    ensures |r| == |ms|
    ensures forall i :: 0 <= i < |ms| ==> r[i] == ms[i].version
  {
    seq(|ms|, i requires 0 <= i < |ms| => ms[i].version)
  }

  lemma VersionsMembership(ms: seq<Migration>, v: string)
    ensures v in Versions(ms) <==> exists m :: m in ms && m.version == v
  {
    if v in Versions(ms) {
      var i :| 0 <= i < |ms| && Versions(ms)[i] == v;
      assert ms[i] in ms;
    }
    if exists m :: m in ms && m.version == v {
      var m :| m in ms && m.version == v;
      var i :| 0 <= i < |ms| && ms[i] == m;
      assert Versions(ms)[i] == v;
    }
  }

  lemma VersionsConcat(a: seq<Migration>, b: seq<Migration>)
    ensures Versions(a + b) == Versions(a) + Versions(b)
  {
  }

  /** Python's `<=` on strings is a total preorder. */
  lemma LexLeTotalPreorder()
    ensures TotalPreorder(LexLe)
  {
    forall a, b ensures LexLe(a, b) || LexLe(b, a) {
      LexLeTotal(a, b);
    }
    forall a, b, c | LexLe(a, b) && LexLe(b, c) ensures LexLe(a, c) {
      LexLeTransitive(a, b, c);
    }
  }

  /** `SELECT version FROM migration_history ORDER BY version` */
  function AppliedVersions(history: seq<Migration>): (r: seq<string>)
    ensures SortedBy(r, LexLe)
    ensures forall v :: v in r <==> v in Versions(history)
  {
    LexLeTotalPreorder();
    var r := Sort(Versions(history), LexLe);
    forall v ensures v in r <==> v in Versions(history) {
      assert v in r <==> v in multiset(r);
    }
    r
  }

  // ---------------------------------------------------------------- running

  /** The position of the first step that does not complete, or the length
      of the plan when every step completes. */
  function FirstFailure(plan: seq<Migration>, ok: Migration -> bool): (k: nat)
    ensures k <= |plan|
    ensures forall i :: 0 <= i < k ==> ok(plan[i])
    ensures k < |plan| ==> !ok(plan[k])
    decreases |plan|
  {
    if |plan| == 0 || !ok(plan[0]) then 0 else 1 + FirstFailure(plan[1..], ok)
  }

  /** The run loop of `migrate`: each completed `up` step is recorded; the
      first one that raises stops the run. */
  function RunUp(plan: seq<Migration>, history: seq<Migration>, ok: Migration -> bool): (r: (seq<Migration>, bool))
    ensures |history| <= |r.0| <= |history| + |plan|
    ensures r.0 == history + plan[..|r.0| - |history|]
    ensures r.1 <==> forall i :: 0 <= i < |plan| ==> ok(plan[i])
    ensures r.1 ==> r.0 == history + plan
    decreases |plan|
  {
    if |plan| == 0 then (history, true)
    else if !ok(plan[0]) then (history, false)
    else
      var rest := RunUp(plan[1..], history + [plan[0]], ok);
      assert rest.0 == history + plan[..|rest.0| - |history|] by {
        assert plan[..|rest.0| - |history|] == [plan[0]] + plan[1..][..|rest.0| - |history| - 1];
      }
      assert (forall i :: 0 <= i < |plan[1..]| ==> ok(plan[1..][i])) <==> (forall i :: 0 <= i < |plan| ==> ok(plan[i])) by {
        if forall i :: 0 <= i < |plan[1..]| ==> ok(plan[1..][i]) {
          forall i | 0 <= i < |plan| ensures ok(plan[i]) {
            if i > 0 { assert plan[i] == plan[1..][i - 1]; }
          }
        }
      }
      rest
  }

  /** The run records exactly the steps before the first failure, in plan
      order, and reports success exactly when there was no failure. */
  lemma {:induction false} RunUpSpec(plan: seq<Migration>, history: seq<Migration>, ok: Migration -> bool)
    ensures var k := FirstFailure(plan, ok);
      RunUp(plan, history, ok) == (history + plan[..k], k == |plan|)
    decreases |plan|
  {
    if |plan| > 0 && ok(plan[0]) {
      var k := FirstFailure(plan[1..], ok);
      RunUpSpec(plan[1..], history + [plan[0]], ok);
      assert plan[..k + 1] == [plan[0]] + plan[1..][..k];
      assert history + [plan[0]] + plan[1..][..k] == history + plan[..k + 1];
    } else {
      assert plan[..0] == [];
      assert history + [] == history;
    }
  }

  /** The migrations `migrate` selects: not yet applied, and no later than
      the target when there is one. */
  function ToRun(applied: seq<string>, target: Option<string>): Migration -> bool {
    (m: Migration) => m.version !in applied && (target.None? || LexLe(m.version, target.value))
  }

  /** The forward plan, in declaration order. */
  function MigratePlan(ms: seq<Migration>, applied: seq<string>, target: Option<string>): (r: seq<Migration>)
    ensures forall m :: m in r <==> m in ms && m.version !in applied && (target.None? || LexLe(m.version, target.value))
  {
    var r := Filter(ms, ToRun(applied, target));
    forall m ensures m in r <==> m in ms && ToRun(applied, target)(m) {
      FilterMembership(ms, ToRun(applied, target), m);
    }
    r
  }

  /** `migrate`: the new history and whether every step completed. */
  function Migrate(ms: seq<Migration>, history: seq<Migration>, target: Option<string>, upOk: Migration -> bool): (r: (seq<Migration>, bool))
    ensures |history| <= |r.0| && r.0[..|history|] == history
    ensures forall i :: |history| <= i < |r.0| ==>
              && r.0[i] in ms && r.0[i].version !in AppliedVersions(history)
              && (target.None? || LexLe(r.0[i].version, target.value))
    ensures r.1 <==> forall m ::
              (m in ms && m.version !in AppliedVersions(history) && (target.None? || LexLe(m.version, target.value)))
              ==> upOk(m)
    ensures r.1 ==> forall m ::
              (m in ms && m.version !in AppliedVersions(history) && (target.None? || LexLe(m.version, target.value)))
              ==> m in r.0
  {
    var plan := MigratePlan(ms, AppliedVersions(history), target);
    var r := RunUp(plan, history, upOk);
    assert r.0[..|history|] == history;
    forall i | |history| <= i < |r.0|
      ensures r.0[i] in ms && r.0[i].version !in AppliedVersions(history)
              && (target.None? || LexLe(r.0[i].version, target.value))
    {
      assert r.0[i] == plan[i - |history|];
    }
    assert (forall i :: 0 <= i < |plan| ==> upOk(plan[i])) <==> (forall m :: m in plan ==> upOk(m));
    r
  }

  /** A run records the planned migrations up to the first failing one, and
      none from there on; it succeeds exactly when none fails. */
  lemma MigrateRecords(ms: seq<Migration>, history: seq<Migration>, target: Option<string>, upOk: Migration -> bool)
    ensures var plan := MigratePlan(ms, AppliedVersions(history), target);
      var k := FirstFailure(plan, upOk);
      var r := Migrate(ms, history, target, upOk);
      && r.0 == history + plan[..k]
      && (r.1 <==> k == |plan|)
      && (forall i :: 0 <= i < k ==> upOk(plan[i]))
      && (!r.1 ==> !upOk(plan[k]))
  {
    RunUpSpec(MigratePlan(ms, AppliedVersions(history), target), history, upOk);
  }

  /** A successful run leaves nothing for a second run with the same target. */
  lemma MigrateIdempotent(ms: seq<Migration>, history: seq<Migration>, target: Option<string>, upOk: Migration -> bool)
    requires Migrate(ms, history, target, upOk).1
    ensures MigratePlan(ms, AppliedVersions(Migrate(ms, history, target, upOk).0), target) == []
  {
    var applied := AppliedVersions(history);
    var plan := MigratePlan(ms, applied, target);
    MigrateRecords(ms, history, target, upOk);
    var h2 := history + plan;
    assert plan[..|plan|] == plan;
    var applied2 := AppliedVersions(h2);
    VersionsConcat(history, plan);
    forall i | 0 <= i < |ms| ensures !ToRun(applied2, target)(ms[i]) {
      assert ms[i] in ms;
      VersionsMembership(plan, ms[i].version);
    }
    FilterNone(ms, ToRun(applied2, target));
  }

  // ---------------------------------------------------------------- rollback

  function Reverse<T>(s: seq<T>): (r: seq<T>)
    ensures |r| == |s|
    ensures forall i :: 0 <= i < |s| ==> r[i] == s[|s| - 1 - i]
  {
    seq(|s|, i requires 0 <= i < |s| => s[|s| - 1 - i])
  }

  lemma ReverseMembership<T>(s: seq<T>, x: T)
    ensures x in Reverse(s) <==> x in s
  {
    if x in s {
      var i :| 0 <= i < |s| && s[i] == x;
      assert Reverse(s)[|s| - 1 - i] == x;
    }
  }

  /** The migrations `rollback` selects: applied and later than the target. */
  function ToUndo(applied: seq<string>, target: string): Migration -> bool {
    (m: Migration) => m.version in applied && !LexLe(m.version, target)
  }

  /** The rollback plan, in reverse declaration order. */
  function RollbackPlan(ms: seq<Migration>, applied: seq<string>, target: string): (r: seq<Migration>)
    ensures forall m :: m in r <==> m in ms && m.version in applied && !LexLe(m.version, target)
  {
    var r := Filter(Reverse(ms), ToUndo(applied, target));
    forall m ensures m in r <==> m in ms && ToUndo(applied, target)(m) {
      FilterMembership(Reverse(ms), ToUndo(applied, target), m);
      ReverseMembership(ms, m);
    }
    r
  }

  /** `DELETE FROM migration_history WHERE version = :version` */
  function RemoveVersion(history: seq<Migration>, v: string): (r: seq<Migration>)
    ensures forall x :: x in r <==> x in history && x.version != v
  {
    var p := (x: Migration) => x.version != v;
    forall x ensures x in Filter(history, p) <==> x in history && p(x) {
      FilterMembership(history, p, x);
    }
    Filter(history, p)
  }

  /** The run loop of `rollback`: each completed `down` step removes its
      record; the first one that raises stops the run. */
  function RunDown(plan: seq<Migration>, history: seq<Migration>, ok: Migration -> bool): (r: (seq<Migration>, bool))
    ensures forall x :: x in r.0 ==> x in history
    decreases |plan|
  {
    if |plan| == 0 then (history, true)
    else if !ok(plan[0]) then (history, false)
    else RunDown(plan[1..], RemoveVersion(history, plan[0].version), ok)
  }

  /** The run removes exactly the records of the steps before the first
      failure and reports success exactly when there was no failure. */
  lemma {:induction false} RunDownSpec(plan: seq<Migration>, history: seq<Migration>, ok: Migration -> bool)
    ensures var k := FirstFailure(plan, ok); var r := RunDown(plan, history, ok);
      && (r.1 <==> k == |plan|)
      && forall x :: x in r.0 <==> x in history && x.version !in Versions(plan[..k])
    decreases |plan|
  {
    var k := FirstFailure(plan, ok);
    if |plan| > 0 && ok(plan[0]) {
      var h1 := RemoveVersion(history, plan[0].version);
      RunDownSpec(plan[1..], h1, ok);
      assert plan[..k] == [plan[0]] + plan[1..][..k - 1];
      VersionsConcat([plan[0]], plan[1..][..k - 1]);
    } else {
      assert plan[..k] == [];
    }
  }

  /** `rollback`: the new history and whether every step completed. */
  function Rollback(ms: seq<Migration>, history: seq<Migration>, target: string, downOk: Migration -> bool): (r: (seq<Migration>, bool))
    ensures forall x :: x in r.0 ==> x in history
    ensures r.1 <==> forall m :: m in ms && m.version in AppliedVersions(history) && !LexLe(m.version, target) ==> downOk(m)
  {
    var plan := RollbackPlan(ms, AppliedVersions(history), target);
    RunDownSpec(plan, history, downOk);
    assert FirstFailure(plan, downOk) == |plan| <==> forall m :: m in plan ==> downOk(m);
    RunDown(plan, history, downOk)
  }

  /** A successful rollback leaves no declared migration later than the
      target applied, and keeps every record that is not later than it. */
  lemma RollbackSpec(ms: seq<Migration>, history: seq<Migration>, target: string, downOk: Migration -> bool)
    requires Rollback(ms, history, target, downOk).1
    ensures var h := Rollback(ms, history, target, downOk).0;
      forall m :: m in ms && m.version in Versions(h) ==> LexLe(m.version, target)
    ensures var h := Rollback(ms, history, target, downOk).0;
      forall x :: x in history && LexLe(x.version, target) ==> x in h
  {
    var plan := RollbackPlan(ms, AppliedVersions(history), target);
    RunDownSpec(plan, history, downOk);
    var h := Rollback(ms, history, target, downOk).0;
    assert plan[..|plan|] == plan;
    forall m | m in ms && m.version in Versions(h) ensures LexLe(m.version, target) {
      VersionsMembership(h, m.version);
      var x :| x in h && x.version == m.version;
      VersionsMembership(history, m.version);
      VersionsMembership(plan, m.version);
    }
    forall x | x in history && LexLe(x.version, target) ensures x in h {
      VersionsMembership(plan, x.version);
    }
  }

  // ---------------------------------------------------------------- status

  datatype Status = Status(
    available: nat, applied: nat, pending: nat,
    current: Option<string>, latest: Option<string>,
    appliedList: seq<string>, pendingList: seq<string>)

  function NotIn(applied: seq<string>): string -> bool {
    v => v !in applied
  }

  function IsIn(applied: seq<string>): string -> bool {
    v => v in applied
  }

  /** The last of a sorted list of versions is the greatest of them. */
  lemma LastIsGreatest(s: seq<string>)
    requires SortedBy(s, LexLe)
    ensures |s| > 0 ==> forall v :: v in s ==> LexLe(v, s[|s| - 1])
  {
    forall v | v in s ensures LexLe(v, s[|s| - 1]) {
      var i :| 0 <= i < |s| && s[i] == v;
      if i == |s| - 1 {
        LexLeReflexive(v);
      }
    }
  }

  /** `get_migration_status` */
  function GetMigrationStatus(ms: seq<Migration>, history: seq<Migration>): (r: Status)
    ensures r.available == |ms| && r.applied == |history| && r.pending == |r.pendingList|
    ensures forall v :: v in r.pendingList <==> v in Versions(ms) && v !in Versions(history)
    ensures r.current.Some? <==> |history| > 0
    ensures r.current.Some? ==> r.current.value in Versions(history) && forall v :: v in Versions(history) ==> LexLe(v, r.current.value)
    ensures r.latest == if |ms| == 0 then None else Some(ms[|ms| - 1].version)
  {
    var applied := AppliedVersions(history);
    var pending := Filter(Versions(ms), NotIn(applied));
    forall v ensures v in pending <==> v in Versions(ms) && v !in applied {
      FilterMembership(Versions(ms), NotIn(applied), v);
    }
    LastIsGreatest(applied);
    Status(
      |ms|, |applied|, |pending|,
      if |applied| > 0 then Some(applied[|applied| - 1]) else None,
      if |ms| > 0 then Some(ms[|ms| - 1].version) else None,
      applied, pending)
  }

  /** Pending and applied declared versions partition the declared ones. */
  lemma StatusCountsAdd(ms: seq<Migration>, history: seq<Migration>)
    ensures var r := GetMigrationStatus(ms, history);
      r.pending + |Filter(Versions(ms), IsIn(r.appliedList))| == r.available
  {
    var applied := AppliedVersions(history);
    FilterDisjointUnion(Versions(ms), NotIn(applied), IsIn(applied), v => true);
    FilterAll(Versions(ms), v => true);
  }

  /** After a full successful run nothing declared is pending. */
  lemma MigrateThenNothingPending(ms: seq<Migration>, history: seq<Migration>, upOk: Migration -> bool)
    requires Migrate(ms, history, None, upOk).1
    ensures GetMigrationStatus(ms, Migrate(ms, history, None, upOk).0).pendingList == []
  {
    var h := Migrate(ms, history, None, upOk).0;
    MigrateIdempotent(ms, history, None, upOk);
    var applied := AppliedVersions(h);
    forall i | 0 <= i < |Versions(ms)| ensures !NotIn(applied)(Versions(ms)[i]) {
      assert ms[i] !in MigratePlan(ms, applied, None);
    }
    FilterNone(Versions(ms), NotIn(applied));
  }
}
