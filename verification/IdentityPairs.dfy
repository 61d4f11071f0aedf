/** How many enabled mappings one employee, a personnel number with a company, can have. */
module IdentityPairs {
  import opened Wrappers
  import opened Text
  import opened Uuid
  import opened Identity
  import opened IdentitySystem
  import opened IdentitySafety

  predicate SamePair(a: Mapping, b: Mapping) {
    a.personnel == b.personnel && a.company.Some? && a.company == b.company
  }

  predicate OneEnabledPerPair(rows: seq<Mapping>) {
    forall i, j :: 0 <= i < j < |rows| && rows[i].enabled && rows[j].enabled ==> !SamePair(rows[i], rows[j])
  }

  predicate Clear(rows: seq<Mapping>, m: Mapping) {
    forall r :: r in rows && r.enabled ==> !SamePair(r, m)
  }

  /** A commit keeps the property exactly when the pair is still clear at that moment. */
  lemma CommitKeepsPairsIff(rows: seq<Mapping>, m: Mapping)
    requires OneEnabledPerPair(rows) && m.enabled
    ensures OneEnabledPerPair(rows + [m]) <==> Clear(rows, m)
  {
    var rows' := rows + [m];
    if OneEnabledPerPair(rows') {
      forall r | r in rows && r.enabled
        ensures !SamePair(r, m)
      {
        var i :| 0 <= i < |rows| && rows[i] == r;
        assert rows'[i] == r && rows'[|rows|] == m;
      }
    }
  }

  // Check-then-commit sections for one employee that do not overlap.

  /** At most one task for each employee is between its conflict check and its commit. */
  predicate OneCommittingPerPair(s: System) {
    forall t, u ::
      (&& t in s.tasks && u in s.tasks && s.tasks[t].at.Committing? && s.tasks[u].at.Committing?
       && SamePair(s.tasks[t].at.mapping, s.tasks[u].at.mapping)) ==> t == u
  }

  /** The administrator may disable rows, but not enable any. */
  predicate Quiet(actions: seq<Action>) {
    forall a :: a in actions ==> !a.Replace? && (a.SetFlags? ==> !a.enabled)
  }

  predicate Orderly(fold: string -> string, s: System) {
    && TasksOk(fold, s)
    && OneEnabledPerPair(s.db.rows)
    && forall t :: t in s.tasks && s.tasks[t].at.Committing? ==> Clear(s.db.rows, s.tasks[t].at.mapping)
  }

  lemma CheckedMeansClear(fold: string -> string, db: Db, job: Job, p: Phase, i: Input)
    requires TaskOk(fold, Task(job, p)) && !p.Committing?
    ensures var p' := Segment(fold, db, job, p, i).1;
            p'.Committing? ==> Clear(db.rows, p'.mapping)
  {
    if p.Reading? {
      ConflictRowsExactly(db.rows, p.claim);
      var existing := ConflictRows(db.rows, p.claim);
      forall r | r in db.rows && existing == []
        ensures !Conflicts(r, p.claim)
      {
        assert r !in existing;
      }
    }
  }

  lemma AdvanceKeepsOrder(fold: string -> string, s: System, t: nat, i: Input)
    requires Orderly(fold, s) && OneCommittingPerPair(s) && t in s.tasks
    ensures OneEnabledPerPair(Exec(fold, s, Advance(t, i)).db.rows)
    ensures var s' := Exec(fold, s, Advance(t, i));
            forall u :: u in s'.tasks && s'.tasks[u].at.Committing? ==> Clear(s'.db.rows, s'.tasks[u].at.mapping)
  {
    var task := s.tasks[t];
    var s' := Exec(fold, s, Advance(t, i));
    assert task == Task(task.job, task.at) && TaskOk(fold, task);
    SegmentEffect(fold, s.db, task.job, task.at, i);
    if task.at.Committing? {
      if s'.db != s.db {
        CommitKeepsPairsIff(s.db.rows, task.at.mapping);
        forall u | u in s'.tasks && s'.tasks[u].at.Committing?
          ensures Clear(s'.db.rows, s'.tasks[u].at.mapping)
        {
          assert !SamePair(task.at.mapping, s.tasks[u].at.mapping);
        }
      }
    } else {
      CheckedMeansClear(fold, s.db, task.job, task.at, i);
    }
  }

  lemma DisablingKeepsClear(rows: seq<Mapping>, row: nat, verified: bool, m: Mapping)
    requires row < |rows| && Clear(rows, m)
    ensures Clear(rows[row := rows[row].(verified := verified, enabled := false)], m)
  {
    var rows' := rows[row := rows[row].(verified := verified, enabled := false)];
    forall r | r in rows' && r.enabled
      ensures !SamePair(r, m)
    {
      var i :| 0 <= i < |rows| && rows'[i] == r;
      assert rows[i] in rows;
    }
  }

  lemma StepKeepsOrder(fold: string -> string, s: System, a: Action)
    requires Orderly(fold, s) && OneCommittingPerPair(s) && !a.Replace? && (a.SetFlags? ==> !a.enabled)
    ensures Orderly(fold, Exec(fold, s, a))
  {
    var s' := Exec(fold, s, a);
    StepKeepsTasks(fold, s, a);
    if a.Advance? && a.t in s.tasks {
      AdvanceKeepsOrder(fold, s, a.t, a.input);
    } else if a.SetFlags? && a.row < |s.db.rows| {
      forall t | t in s'.tasks && s'.tasks[t].at.Committing?
        ensures Clear(s'.db.rows, s'.tasks[t].at.mapping)
      {
        DisablingKeepsClear(s.db.rows, a.row, a.verified, s'.tasks[t].at.mapping);
      }
    }
  }

  /**
    If no two check-then-commit sections for one employee overlap, however those for different employees do,
    no employee ever has two enabled rows with exactly the same personnel number and company.
  */
  lemma {:induction false} NoOverlapOneEnabled(fold: string -> string, s: System, actions: seq<Action>, n: nat)
    requires Orderly(fold, s) && Quiet(actions) && n <= |actions|
    requires forall k :: 0 <= k < n ==> OneCommittingPerPair(After(fold, s, actions, k))
    ensures Orderly(fold, After(fold, s, actions, n))
  {
    if n > 0 {
      NoOverlapOneEnabled(fold, s, actions, n - 1);
      AfterNext(fold, s, actions, n - 1);
      assert actions[n - 1] in actions;
      StepKeepsOrder(fold, After(fold, s, actions, n - 1), actions[n - 1]);
    }
  }

  // Which overlaps give one employee two rows.

  /** Two tasks about to commit rows for one employee that the database would both accept. */
  predicate Rivals(s: System, t: nat, u: nat) {
    && t != u && t in s.tasks && u in s.tasks && s.tasks[t].at.Committing? && s.tasks[u].at.Committing?
    && var a, b := s.tasks[t].at.mapping, s.tasks[u].at.mapping;
    && SamePair(a, b) && !Collide(a, b) && Admits(s.db.rows, a) && Admits(s.db.rows, b)
  }

  /** A task about to commit a row that the database would accept, although its employee has an enabled row by now. */
  predicate Stale(s: System, t: nat) {
    && t in s.tasks && s.tasks[t].at.Committing?
    && Admits(s.db.rows, s.tasks[t].at.mapping) && !Clear(s.db.rows, s.tasks[t].at.mapping)
  }

  predicate NoDuplicateDue(s: System) {
    (forall t :: t in s.tasks ==> !Stale(s, t)) && forall t, u :: t in s.tasks && u in s.tasks ==> !Rivals(s, t, u)
  }

  /** Only tasks that are about to commit in `s` run. */
  predicate OnlyCommits(s: System, schedule: seq<Action>) {
    forall a :: a in schedule ==> a.Advance? && a.t in s.tasks && s.tasks[a.t].at.Committing?
  }

  /** Each row that came after `s` is the draft of one task that was committing in `s` and no longer is. */
  predicate Origin(s: System, s': System, i: nat)
    requires i < |s'.db.rows|
  {
    exists t :: t in s.tasks && s.tasks[t].at.Committing? && s'.db.rows[i] == s.tasks[t].at.mapping
      && t in s'.tasks && !s'.tasks[t].at.Committing?
  }

  /** Where a schedule of commits from `s` can lead. */
  predicate Committed(fold: string -> string, s: System, s': System) {
    && TasksOk(fold, s')
    && s.db.rows <= s'.db.rows && OneEnabledPerPair(s'.db.rows)
    && s'.tasks.Keys == s.tasks.Keys
    && (forall t :: t in s.tasks && s'.tasks[t].at.Committing? ==> s'.tasks[t] == s.tasks[t])
    && (forall i :: |s.db.rows| <= i < |s'.db.rows| ==> Origin(s, s', i) && Admits(s.db.rows, s'.db.rows[i]))
  }

  /** A draft that commits next meets no enabled row of its employee. */
  lemma DraftStaysClear(fold: string -> string, s: System, s': System, u: nat)
    requires NoDuplicateDue(s) && Committed(fold, s, s')
    requires u in s'.tasks && s'.tasks[u].at.Committing? && Admits(s'.db.rows, s'.tasks[u].at.mapping)
    ensures Clear(s'.db.rows, s'.tasks[u].at.mapping)
  {
    var m := s'.tasks[u].at.mapping;
    forall r | r in s'.db.rows && r.enabled
      ensures !SamePair(r, m)
    {
      var i :| 0 <= i < |s'.db.rows| && s'.db.rows[i] == r;
      assert forall q :: q in s.db.rows ==> q in s'.db.rows;
      if i < |s.db.rows| {
        assert r in s.db.rows && !Stale(s, u);
      } else {
        assert Origin(s, s', i);
        var t :| t in s.tasks && s.tasks[t].at.Committing? && r == s.tasks[t].at.mapping && !s'.tasks[t].at.Committing?;
        assert !Rivals(s, t, u);
      }
    }
  }

  lemma OriginStays(s: System, mid: System, s': System, i: nat)
    requires i < |mid.db.rows| && mid.db.rows <= s'.db.rows && Origin(s, mid, i)
    requires forall t :: t in mid.tasks && !mid.tasks[t].at.Committing? ==> t in s'.tasks && !s'.tasks[t].at.Committing?
    ensures Origin(s, s', i)
  {
  }

  lemma NotCommittingAgain(fold: string -> string, s: System, t: nat, i: Input)
    requires t in s.tasks && Rank(s.tasks[t].at) <= 3
    ensures !Exec(fold, s, Advance(t, i)).tasks[t].at.Committing?
  {
  }

  /** The tasks of a schedule of commits are past the conflict read. */
  predicate PastReading(s: System, mid: System) {
    forall t :: t in s.tasks && t in mid.tasks && s.tasks[t].at.Committing? ==> Rank(mid.tasks[t].at) <= 3
  }

  /** What a commit adds to the table. */
  lemma CommittedRow(fold: string -> string, s: System, mid: System, t: nat, i: Input)
    requires NoDuplicateDue(s) && Committed(fold, s, mid) && t in s.tasks && s.tasks[t].at.Committing?
    requires mid.tasks[t].at.Committing? && Admits(mid.db.rows, mid.tasks[t].at.mapping)
    ensures
      var s' := Exec(fold, mid, Advance(t, i));
      && s'.db.rows == mid.db.rows + [s.tasks[t].at.mapping] && OneEnabledPerPair(s'.db.rows)
      && Admits(s.db.rows, s.tasks[t].at.mapping) && Origin(s, s', |mid.db.rows|)
  {
    var task := mid.tasks[t];
    assert TaskOk(fold, task);
    DraftStaysClear(fold, s, mid, t);
    CommitKeepsPairsIff(mid.db.rows, task.at.mapping);
    NotCommittingAgain(fold, mid, t, i);
    assert forall q :: q in s.db.rows ==> q in mid.db.rows;
  }

  lemma RowsOnlyFromCommits(fold: string -> string, mid: System, t: nat, i: Input)
    requires t in mid.tasks
    ensures
      var s' := Exec(fold, mid, Advance(t, i));
      && s'.tasks.Keys == mid.tasks.Keys
      && (forall u :: u in mid.tasks && u != t ==> s'.tasks[u] == mid.tasks[u])
      && (s'.db.rows == mid.db.rows
          || (mid.tasks[t].at.Committing? && Admits(mid.db.rows, mid.tasks[t].at.mapping)))
  {
    SegmentEffect(fold, mid.db, mid.tasks[t].job, mid.tasks[t].at, i);
  }

  lemma CommitStep(fold: string -> string, s: System, mid: System, t: nat, i: Input)
    requires NoDuplicateDue(s) && Committed(fold, s, mid) && PastReading(s, mid)
    requires t in s.tasks && s.tasks[t].at.Committing?
    ensures Committed(fold, s, Exec(fold, mid, Advance(t, i)))
  {
    var s' := Exec(fold, mid, Advance(t, i));
    StepKeepsTasks(fold, mid, Advance(t, i));
    NotCommittingAgain(fold, mid, t, i);
    RowsOnlyFromCommits(fold, mid, t, i);
    if s'.db.rows != mid.db.rows {
      CommittedRow(fold, s, mid, t, i);
    }
    forall j | |s.db.rows| <= j < |s'.db.rows|
      ensures Origin(s, s', j) && Admits(s.db.rows, s'.db.rows[j])
    {
      if j < |mid.db.rows| {
        OriginStays(s, mid, s', j);
      }
    }
  }

  lemma StaysPastReading(fold: string -> string, s: System, mid: System, t: nat, i: Input)
    requires PastReading(s, mid) && t in mid.tasks
    ensures PastReading(s, Exec(fold, mid, Advance(t, i)))
  {
  }

  lemma {:induction false} ScheduleKeepsPairs(fold: string -> string, s: System, schedule: seq<Action>, n: nat)
    requires TasksOk(fold, s) && OneEnabledPerPair(s.db.rows) && NoDuplicateDue(s)
    requires OnlyCommits(s, schedule) && n <= |schedule|
    ensures Committed(fold, s, After(fold, s, schedule, n)) && PastReading(s, After(fold, s, schedule, n))
  {
    if n > 0 {
      ScheduleKeepsPairs(fold, s, schedule, n - 1);
      AfterNext(fold, s, schedule, n - 1);
      var a := schedule[n - 1];
      assert a in schedule;
      CommitStep(fold, s, After(fold, s, schedule, n - 1), a.t, a.input);
      StaysPastReading(fold, s, After(fold, s, schedule, n - 1), a.t, a.input);
    }
  }

  lemma TwoSteps(fold: string -> string, s: System, a: Action, b: Action)
    ensures Run(fold, s, [a, b]) == Exec(fold, Exec(fold, s, a), b)
  {
    assert After(fold, s, [a, b], 0) == s;
    AfterNext(fold, s, [a, b], 0);
    AfterNext(fold, s, [a, b], 1);
    AfterAll(fold, s, [a, b]);
  }

  lemma AdmittedCommit(fold: string -> string, s: System, t: nat, i: Input)
    requires t in s.tasks && s.tasks[t].at.Committing? && Admits(s.db.rows, s.tasks[t].at.mapping)
    ensures
      var s' := Exec(fold, s, Advance(t, i));
      && s'.db.rows == s.db.rows + [s.tasks[t].at.mapping]
      && forall u :: u in s.tasks && u != t ==> u in s'.tasks && s'.tasks[u] == s.tasks[u]
  {
  }

  /** Two rivals that commit one after the other leave their employee with two enabled rows. */
  lemma RivalsDuplicate(fold: string -> string, s: System, t: nat, u: nat, i: Input)
    requires TasksOk(fold, s) && Rivals(s, t, u)
    ensures OnlyCommits(s, [Advance(t, i), Advance(u, i)])
    ensures !OneEnabledPerPair(Run(fold, s, [Advance(t, i), Advance(u, i)]).db.rows)
  {
    var a, b := s.tasks[t].at.mapping, s.tasks[u].at.mapping;
    assert TaskOk(fold, s.tasks[t]) && TaskOk(fold, s.tasks[u]);
    var mid := Exec(fold, s, Advance(t, i));
    AdmittedCommit(fold, s, t, i);
    AdmittedCommit(fold, mid, u, i);
    TwoSteps(fold, s, Advance(t, i), Advance(u, i));
    var rows := s.db.rows + [a] + [b];
    assert rows[|s.db.rows|] == a && rows[|s.db.rows| + 1] == b;
  }

  /** A stale draft duplicates as soon as it commits. */
  lemma StaleDuplicates(fold: string -> string, s: System, t: nat, i: Input)
    requires TasksOk(fold, s) && OneEnabledPerPair(s.db.rows) && Stale(s, t)
    ensures OnlyCommits(s, [Advance(t, i)])
    ensures !OneEnabledPerPair(Run(fold, s, [Advance(t, i)]).db.rows)
  {
    var m := s.tasks[t].at.mapping;
    assert TaskOk(fold, s.tasks[t]);
    assert After(fold, s, [Advance(t, i)], 0) == s;
    AfterNext(fold, s, [Advance(t, i)], 0);
    AfterAll(fold, s, [Advance(t, i)]);
    AdmittedCommit(fold, s, t, i);
    CommitKeepsPairsIff(s.db.rows, m);
  }

  /**
    The database does not keep the pairs single. Wherever they still are, some order of the pending commits
    gives one employee two enabled rows if and only if two of the pending drafts are rivals or one is stale.
  */
  lemma SomeScheduleDuplicatesIff(fold: string -> string, s: System, i: Input)
    requires TasksOk(fold, s) && OneEnabledPerPair(s.db.rows)
    ensures (exists schedule :: OnlyCommits(s, schedule) && !OneEnabledPerPair(Run(fold, s, schedule).db.rows))
            <==> (exists t, u :: Rivals(s, t, u)) || (exists t :: Stale(s, t))
  {
    if t, u :| Rivals(s, t, u) {
      RivalsDuplicate(fold, s, t, u, i);
    } else if t :| Stale(s, t) {
      StaleDuplicates(fold, s, t, i);
    } else {
      forall schedule | OnlyCommits(s, schedule)
        ensures OneEnabledPerPair(Run(fold, s, schedule).db.rows)
      {
        ScheduleKeepsPairs(fold, s, schedule, |schedule|);
        AfterAll(fold, s, schedule);
      }
    }
  }

  // Overlapping tasks whose claims follow one function from employees to object IDs.

  /** `owner` gives the object ID of each employee; every claim of the state follows it. */
  predicate FollowsOwner(s: System, owner: (string, string) -> string) {
    forall t :: t in s.tasks && ClaimOf(s.tasks[t].at).Some? ==>
      var c := ClaimOf(s.tasks[t].at).value;
      c.oid == owner(c.personnel, c.company)
  }

  predicate OwnedRows(rows: seq<Mapping>, owner: (string, string) -> string) {
    forall r :: r in rows && r.company.Some? ==> r.oid == Some(owner(r.personnel, r.company.value))
  }

  /**
    However tasks overlap, if the claims follow one owner function, no two rows at all, enabled or not,
    share a personnel number and company, although the database does not enforce it.
  */
  lemma {:induction false} OneOwnerOneRow(
    fold: string -> string, s: System, actions: seq<Action>, owner: (string, string) -> string)
    requires TasksOk(fold, s) && Consistent(s.db.rows) && OwnedRows(s.db.rows, owner) && WritersOnly(actions)
    requires forall k :: 0 <= k <= |actions| ==> FollowsOwner(After(fold, s, actions, k), owner)
    ensures
      var rows := Run(fold, s, actions).db.rows;
      && Consistent(rows) && OwnedRows(rows, owner)
      && (forall i, j :: 0 <= i < j < |rows| ==> !SamePair(rows[i], rows[j]))
  {
    var rows := Run(fold, s, actions).db.rows;
    if actions != [] {
      var n := |actions| - 1;
      var front := actions[..n];
      assert actions[n] in actions && forall a :: a in front ==> a in actions;
      forall k | 0 <= k <= |front|
        ensures FollowsOwner(After(fold, s, front, k), owner)
      {
        AfterFront(fold, s, actions, k);
      }
      OneOwnerOneRow(fold, s, front, owner);
      AfterAll(fold, s, actions);
      var mid := After(fold, s, actions, n);
      RunKeepsTasks(fold, s, front);
      StepKeepsOwner(fold, mid, actions[n], owner);
    }
    OwnedRowsDiffer(rows, owner);
  }

  lemma OwnedRowsDiffer(rows: seq<Mapping>, owner: (string, string) -> string)
    requires Consistent(rows) && OwnedRows(rows, owner)
    ensures forall i, j :: 0 <= i < j < |rows| ==> !SamePair(rows[i], rows[j])
  {
    forall i, j | 0 <= i < j < |rows|
      ensures !SamePair(rows[i], rows[j])
    {
      assert rows[i] in rows && rows[j] in rows && !Collide(rows[i], rows[j]);
    }
  }

  lemma FlagsKeepOwner(rows: seq<Mapping>, row: nat, verified: bool, enabled: bool, owner: (string, string) -> string)
    requires Consistent(rows) && OwnedRows(rows, owner) && row < |rows|
    ensures var rows' := rows[row := rows[row].(verified := verified, enabled := enabled)];
            Consistent(rows') && OwnedRows(rows', owner)
  {
    var rows' := rows[row := rows[row].(verified := verified, enabled := enabled)];
    assert rows[row] in rows;
    forall i, j | 0 <= i < j < |rows'|
      ensures !Collide(rows'[i], rows'[j])
    {
      assert !Collide(rows[i], rows[j]);
    }
  }

  lemma StepKeepsOwner(fold: string -> string, s: System, a: Action, owner: (string, string) -> string)
    requires TasksOk(fold, s) && Consistent(s.db.rows) && OwnedRows(s.db.rows, owner) && !a.Replace?
    requires FollowsOwner(s, owner)
    ensures Consistent(Exec(fold, s, a).db.rows) && OwnedRows(Exec(fold, s, a).db.rows, owner)
  {
    if a.Advance? && a.t in s.tasks {
      var p := s.tasks[a.t].at;
      SegmentEffect(fold, s.db, s.tasks[a.t].job, p, a.input);
      assert TaskOk(fold, s.tasks[a.t]);
      if p.Committing? {
        assert ClaimOf(p) == Some(p.claim);
      }
    } else if a.SetFlags? && a.row < |s.db.rows| {
      FlagsKeepOwner(s.db.rows, a.row, a.verified, a.enabled, owner);
    }
  }

  // Overlapping tasks in general.

  function Overlap(first: Job, second: Job, input0: Input, input1: Input): seq<Action> {
    [Start(0, first), Start(1, second), Advance(0, input0), Advance(1, input1), Advance(0, input0), Advance(1, input1)]
  }

  lemma FirstCheckPasses(fold: string -> string, job: Job, id: nat)
    requires job.Create? && Canonical(job.oid).Some? && Canonical(job.approvedBy).Some?
    requires Fits(Strip(job.personnel), Strip(job.company))
    ensures
      var p := AfterManualRead(fold, [], job, id);
      && p.Committing? && p.mapping.id == id && p.mapping.oid == Canonical(job.oid) && p.mapping.enabled
      && p.mapping.personnel == Strip(job.personnel) && p.mapping.company == Some(Strip(job.company))
  {
  }

  lemma BothStarted(fold: string -> string, first: Job, second: Job)
    ensures Run(fold, EMPTY, [Start(0, first), Start(1, second)]) ==
      System(Db([], []), map[0 := Task(first, Starting), 1 := Task(second, Starting)])
  {
    TwoSteps(fold, EMPTY, Start(0, first), Start(1, second));
  }

  lemma BothChecked(fold: string -> string, first: Job, second: Job, input0: Input, input1: Input)
    requires first.Create? && second.Create?
    ensures
      var s := System(Db([], []), map[0 := Task(first, Starting), 1 := Task(second, Starting)]);
      Run(fold, s, [Advance(0, input0), Advance(1, input1)]) ==
      System(Db([], []), map[0 := Task(first, AfterManualRead(fold, [], first, input0.id)),
                             1 := Task(second, AfterManualRead(fold, [], second, input1.id))])
  {
    TwoSteps(fold, System(Db([], []), map[0 := Task(first, Starting), 1 := Task(second, Starting)]),
      Advance(0, input0), Advance(1, input1));
  }

  lemma BothCommit(fold: string -> string, s: System, input0: Input, input1: Input)
    requires s.db == Db([], []) && 0 in s.tasks && 1 in s.tasks
    requires s.tasks[0].at.Committing? && s.tasks[1].at.Committing?
    requires !Collide(s.tasks[0].at.mapping, s.tasks[1].at.mapping)
    ensures Run(fold, s, [Advance(0, input0), Advance(1, input1)]).db.rows ==
      [s.tasks[0].at.mapping, s.tasks[1].at.mapping]
  {
    TwoSteps(fold, s, Advance(0, input0), Advance(1, input1));
    AdmittedCommit(fold, s, 0, input0);
    AdmittedCommit(fold, Exec(fold, s, Advance(0, input0)), 1, input1);
  }

  /** Two operators who overlap can give one employee to two users: the database accepts both rows. */
  lemma OverlapDuplicates(fold: string -> string, a: string, b: string, approver: string, personnel: string,
                          company: string, input0: Input, input1: Input)
    requires Canonical(a).Some? && Canonical(b).Some? && Canonical(a) != Canonical(b) && Canonical(approver).Some?
    requires Fits(Strip(personnel), Strip(company)) && input0.id != input1.id
    ensures
      var first := Create(a, approver, personnel, company, None, None);
      var second := Create(b, approver, personnel, company, None, None);
      var rows := Run(fold, EMPTY, Overlap(first, second, input0, input1)).db.rows;
      |rows| == 2 && !OneEnabledPerPair(rows)
  {
    var first := Create(a, approver, personnel, company, None, None);
    var second := Create(b, approver, personnel, company, None, None);
    FirstCheckPasses(fold, first, input0.id);
    FirstCheckPasses(fold, second, input1.id);
    var p0 := AfterManualRead(fold, [], first, input0.id);
    var p1 := AfterManualRead(fold, [], second, input1.id);
    OverlapRuns(fold, first, second, input0, input1);
    BothCommit(fold, System(Db([], []), map[0 := Task(first, p0), 1 := Task(second, p1)]), input0, input1);
    var rows := Run(fold, EMPTY, Overlap(first, second, input0, input1)).db.rows;
    assert rows[0].enabled && rows[1].enabled && SamePair(rows[0], rows[1]);
  }

  lemma OverlapRuns(fold: string -> string, first: Job, second: Job, input0: Input, input1: Input)
    requires first.Create? && second.Create?
    ensures
      var p0 := AfterManualRead(fold, [], first, input0.id);
      var p1 := AfterManualRead(fold, [], second, input1.id);
      Run(fold, EMPTY, Overlap(first, second, input0, input1)) ==
      Run(fold, System(Db([], []), map[0 := Task(first, p0), 1 := Task(second, p1)]),
        [Advance(0, input0), Advance(1, input1)])
  {
    var starts := [Start(0, first), Start(1, second)];
    var steps := [Advance(0, input0), Advance(1, input1)];
    assert Overlap(first, second, input0, input1) == starts + steps + steps;
    RunConcat(fold, EMPTY, starts + steps, steps);
    RunConcat(fold, EMPTY, starts, steps);
    BothStarted(fold, first, second);
    BothChecked(fold, first, second, input0, input1);
  }
}
