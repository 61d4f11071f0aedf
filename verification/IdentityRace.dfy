/** Racing tasks for one user with the same D365 answer all end with one committed row. */
module IdentityRace {
  import opened Wrappers
  import opened Identity
  import opened IdentitySystem
  import opened IdentitySafety

  predicate SameEmployee(fold: string -> string, c: Claim, g: Claim) {
    c.personnel == g.personnel && fold(c.company) == fold(g.company)
  }

  /** The claim is g, up to the case of the company. */
  predicate Same(fold: string -> string, c: Claim, g: Claim) {
    c.oid == g.oid && SameEmployee(fold, c, g)
  }

  /** The claim is about another user and another employee. */
  predicate Apart(fold: string -> string, c: Claim, g: Claim) {
    c.oid != g.oid && !SameEmployee(fold, c, g)
  }

  /** The row is about the user or the employee of g. */
  predicate Touches(fold: string -> string, r: Mapping, g: Claim) {
    || r.oid == Some(g.oid)
    || (r.personnel == g.personnel && r.company.Some? && fold(r.company.value) == fold(g.company))
  }

  predicate FairClaim(fold: string -> string, p: Phase, g: Claim) {
    ClaimOf(p).Some? ==> Same(fold, ClaimOf(p).value, g) || Apart(fold, ClaimOf(p).value, g)
  }

  /** D365 never contradicts itself about g, and generated row IDs do not repeat. */
  predicate Fair(fold: string -> string, s: System, g: Claim) {
    forall t :: t in s.tasks ==>
      && FairClaim(fold, s.tasks[t].at, g)
      && (s.tasks[t].at.Committing? ==> forall r :: r in s.db.rows ==> r.id != s.tasks[t].at.mapping.id)
  }

  predicate FairThroughout(fold: string -> string, s: System, actions: seq<Action>, g: Claim) {
    forall k :: 0 <= k <= |actions| ==> Fair(fold, After(fold, s, actions, k), g)
  }

  /** At most one row touches g, and it is the mapping of g. */
  predicate OneWinner(fold: string -> string, rows: seq<Mapping>, g: Claim) {
    && (forall i, j :: 0 <= i < |rows| && 0 <= j < |rows| && Touches(fold, rows[i], g) && Touches(fold, rows[j], g) ==>
      i == j)
    && (forall r :: r in rows && Touches(fold, r, g) ==> IsSame(fold, r, g))
  }

  /** The rows that touch g stay as they are, and none is copied. */
  predicate Spares(fold: string -> string, rows: seq<Mapping>, rows': seq<Mapping>, g: Claim) {
    && (forall r :: r in rows && Touches(fold, r, g) ==> r in rows')
    && (forall r :: r in rows' && Touches(fold, r, g) ==> r in rows)
    && (forall i, j :: 0 <= i < j < |rows'| && Touches(fold, rows'[i], g) ==> rows'[i] != rows'[j])
  }

  /** What is done to the table from outside does not concern g. */
  predicate Mild(fold: string -> string, s: System, a: Action, g: Claim) {
    a.SetFlags? || a.Replace? ==> Spares(fold, s.db.rows, Exec(fold, s, a).db.rows, g)
  }

  predicate Undisturbed(fold: string -> string, s: System, actions: seq<Action>, g: Claim) {
    forall k :: 0 <= k < |actions| ==> Mild(fold, After(fold, s, actions, k), actions[k], g)
  }

  predicate Won(fold: string -> string, rows: seq<Mapping>, g: Claim) {
    exists r :: r in rows && Touches(fold, r, g)
  }

  predicate IsWinner(fold: string -> string, rows: seq<Mapping>, m: Mapping, g: Claim) {
    m in rows && Touches(fold, m, g)
  }

  /** Where a task for g may be. */
  predicate OnCourse(fold: string -> string, rows: seq<Mapping>, task: Task, g: Claim) {
    && (ClaimOf(task.at).Some? && Same(fold, ClaimOf(task.at).value, g) && task.job.Resolve? ==>
      match task.at
      case Rereading(_) => Won(fold, rows, g)
      case Auditing(_, m, _) => IsWinner(fold, rows, m, g)
      case Done(outcome, _, _) =>
        outcome.Crashed? || (outcome.Provisioned? && IsWinner(fold, rows, outcome.mapping, g))
      case _ => true)
    && (task.at.Done? && task.at.outcome.Found? && task.job.Resolve? && task.job.user.oid == g.oid ==>
      IsWinner(fold, rows, task.at.outcome.mapping, g))
  }

  predicate Racing(fold: string -> string, s: System, g: Claim) {
    && TasksOk(fold, s)
    && OneWinner(fold, s.db.rows, g)
    && forall t :: t in s.tasks ==> OnCourse(fold, s.db.rows, s.tasks[t], g)
  }

  /** The conflict query for g finds the winner if there is one, and nothing otherwise. */
  lemma ConflictsAreTheWinner(fold: string -> string, rows: seq<Mapping>, c: Claim, g: Claim)
    requires OneWinner(fold, rows, g) && Same(fold, c, g)
    ensures !Won(fold, rows, g) ==> ConflictRows(rows, c) == []
    ensures Won(fold, rows, g) ==>
      exists w :: IsWinner(fold, rows, w, g) && ConflictRows(rows, c) == [w] && IsSame(fold, w, c)
  {
    if Won(fold, rows, g) {
      var w :| w in rows && Touches(fold, w, g);
      var k :| 0 <= k < |rows| && rows[k] == w;
      forall i | 0 <= i < |rows|
        ensures Conflicts(rows[i], c) <==> i == k
      {
        assert Conflicts(rows[i], c) ==> Touches(fold, rows[i], g);
      }
      OnlyConflict(rows, c, k);
    } else {
      NoConflict(rows, c);
    }
  }

  lemma CommitKeepsOneWinner(fold: string -> string, rows: seq<Mapping>, m: Mapping, c: Claim, g: Claim)
    requires OneWinner(fold, rows, g) && Admits(rows, m)
    requires m.oid == Some(c.oid) && m.personnel == c.personnel && m.company == Some(c.company) && m.verified && m.enabled
    requires Same(fold, c, g) || Apart(fold, c, g)
    ensures OneWinner(fold, rows + [m], g)
  {
    if Touches(fold, m, g) {
      forall r | r in rows
        ensures !Touches(fold, r, g)
      {
        assert Touches(fold, r, g) ==> r.oid == m.oid && Collide(r, m);
      }
    }
  }

  lemma LookupKeepsCourse(fold: string -> string, rows: seq<Mapping>, user: User, required: bool, g: Claim)
    ensures OnCourse(fold, rows, Task(Resolve(user, required), AfterLookup(fold, rows, user, required)), g)
  {
    VerifiedRowsExactly(rows, user.oid);
    var found := VerifiedRows(rows, user.oid);
    assert |found| == 1 ==> found[0] in found;
  }

  lemma ReadKeepsCourse(fold: string -> string, rows: seq<Mapping>, user: User, required: bool, upn: string, c: Claim, id: nat, g: Claim)
    requires OneWinner(fold, rows, g)
    ensures OnCourse(fold, rows, Task(Resolve(user, required), AfterRead(fold, rows, user, upn, c, id)), g)
    ensures Same(fold, c, g) && Won(fold, rows, g) ==>
      OnCourse(fold, rows, Task(Resolve(user, required), Agreed(fold, ConflictRows(rows, c), c)), g)
  {
    if Same(fold, c, g) {
      ConflictsAreTheWinner(fold, rows, c, g);
    }
  }

  lemma CommitKeepsCourse(fold: string -> string, db: Db, job: Job, c: Claim, m: Mapping, h: History, g: Claim)
    requires OneWinner(fold, db.rows, g) && IsDraft(m, h, c) && About(job, c)
    requires Same(fold, c, g) || Apart(fold, c, g)
    requires forall r :: r in db.rows ==> r.id != m.id
    ensures
      var (db', p) := Commit(db, job, c, m, h);
      OneWinner(fold, db'.rows, g) && OnCourse(fold, db'.rows, Task(job, p), g)
  {
    if Admits(db.rows, m) {
      CommitKeepsOneWinner(fold, db.rows, m, c, g);
    } else if Same(fold, c, g) {
      var r :| r in db.rows && Collide(r, m);
      assert Touches(fold, r, g);
    }
  }

  lemma StartKeepsCourse(fold: string -> string, db: Db, job: Job, i: Input, g: Claim)
    ensures OnCourse(fold, db.rows, Task(job, Segment(fold, db, job, Starting, i).1), g)
  {
    if job.Resolve? {
      LookupKeepsCourse(fold, db.rows, job.user, job.required, g);
    }
  }

  lemma AskKeepsCourse(fold: string -> string, db: Db, job: Job, p: Phase, i: Input, g: Claim)
    requires p.Configuring? || p.Asking?
    ensures OnCourse(fold, db.rows, Task(job, Segment(fold, db, job, p, i).1), g)
  {
  }

  lemma SegmentKeepsCourse(fold: string -> string, db: Db, job: Job, p: Phase, i: Input, g: Claim)
    requires TaskOk(fold, Task(job, p)) && OneWinner(fold, db.rows, g) && OnCourse(fold, db.rows, Task(job, p), g)
    requires FairClaim(fold, p, g) && (p.Committing? ==> forall r :: r in db.rows ==> r.id != p.mapping.id)
    ensures
      var (db', p') := Segment(fold, db, job, p, i);
      OneWinner(fold, db'.rows, g) && OnCourse(fold, db'.rows, Task(job, p'), g)
  {
    match p {
      case Starting => StartKeepsCourse(fold, db, job, i, g);
      case Configuring(_, _) => AskKeepsCourse(fold, db, job, p, i, g);
      case Asking(_, _, _) => AskKeepsCourse(fold, db, job, p, i, g);
      case Reading(upn, c) => ReadKeepsCourse(fold, db.rows, job.user, job.required, upn, c, i.id, g);
      case Rereading(c) => ReadKeepsCourse(fold, db.rows, job.user, job.required, "", c, i.id, g);
      case Committing(c, m, h) => CommitKeepsCourse(fold, db, job, c, m, h, g);
      case Auditing(_, _, _) =>
      case Done(_, _, _) =>
    }
  }

  /** What touches g stays in the table. */
  predicate Keeps(fold: string -> string, rows: seq<Mapping>, rows': seq<Mapping>, g: Claim) {
    forall r :: r in rows && Touches(fold, r, g) ==> r in rows'
  }

  lemma CourseStays(fold: string -> string, rows: seq<Mapping>, rows': seq<Mapping>, task: Task, g: Claim)
    requires OnCourse(fold, rows, task, g) && Keeps(fold, rows, rows', g)
    ensures OnCourse(fold, rows', task, g)
  {
    if Won(fold, rows, g) {
      var w :| w in rows && Touches(fold, w, g);
      assert w in rows';
    }
  }

  lemma SparedWinner(fold: string -> string, rows: seq<Mapping>, rows': seq<Mapping>, g: Claim)
    requires OneWinner(fold, rows, g) && Spares(fold, rows, rows', g)
    ensures OneWinner(fold, rows', g) && Keeps(fold, rows, rows', g)
  {
    forall i, j | 0 <= i < |rows'| && 0 <= j < |rows'| && Touches(fold, rows'[i], g) && Touches(fold, rows'[j], g)
      ensures i == j
    {
      WinnerIsUnique(fold, rows, rows'[i], rows'[j], g);
    }
  }

  /** Every action keeps what touches g, and at most one row does. */
  lemma StepKeepsWinner(fold: string -> string, s: System, a: Action, g: Claim)
    requires Racing(fold, s, g) && Fair(fold, s, g) && Mild(fold, s, a, g)
    ensures OneWinner(fold, Exec(fold, s, a).db.rows, g) && Keeps(fold, s.db.rows, Exec(fold, s, a).db.rows, g)
  {
    if a.Advance? && a.t in s.tasks {
      var task := s.tasks[a.t];
      assert task == Task(task.job, task.at) && TaskOk(fold, task) && OnCourse(fold, s.db.rows, task, g);
      SegmentKeepsCourse(fold, s.db, task.job, task.at, a.input, g);
      SegmentEffect(fold, s.db, task.job, task.at, a.input);
    } else if a.SetFlags? || a.Replace? {
      SparedWinner(fold, s.db.rows, Exec(fold, s, a).db.rows, g);
    }
  }

  lemma StepKeepsCourse(fold: string -> string, s: System, a: Action, g: Claim, t: nat)
    requires Racing(fold, s, g) && Fair(fold, s, g) && t in Exec(fold, s, a).tasks
    requires Keeps(fold, s.db.rows, Exec(fold, s, a).db.rows, g)
    ensures OnCourse(fold, Exec(fold, s, a).db.rows, Exec(fold, s, a).tasks[t], g)
  {
    var s' := Exec(fold, s, a);
    if t in s.tasks && s'.tasks[t] == s.tasks[t] {
      CourseStays(fold, s.db.rows, s'.db.rows, s.tasks[t], g);
    } else if a.Advance? && t in s.tasks {
      var task := s.tasks[t];
      assert task == Task(task.job, task.at) && TaskOk(fold, task) && OnCourse(fold, s.db.rows, task, g);
      AdvanceTask(fold, s, t, a.input);
      SegmentKeepsCourse(fold, s.db, task.job, task.at, a.input, g);
    }
  }

  lemma StepKeepsRacing(fold: string -> string, s: System, a: Action, g: Claim)
    requires Racing(fold, s, g) && Fair(fold, s, g) && Mild(fold, s, a, g)
    ensures Racing(fold, Exec(fold, s, a), g)
  {
    StepKeepsTasks(fold, s, a);
    StepKeepsWinner(fold, s, a, g);
    forall t | t in Exec(fold, s, a).tasks
      ensures OnCourse(fold, Exec(fold, s, a).db.rows, Exec(fold, s, a).tasks[t], g)
    {
      StepKeepsCourse(fold, s, a, g, t);
    }
  }

  lemma {:induction false} RunKeepsRacing(fold: string -> string, s: System, actions: seq<Action>, g: Claim, n: nat)
    requires Racing(fold, s, g) && Undisturbed(fold, s, actions, g) && FairThroughout(fold, s, actions, g)
    requires n <= |actions|
    ensures Racing(fold, After(fold, s, actions, n), g)
  {
    if n > 0 {
      RunKeepsRacing(fold, s, actions, g, n - 1);
      var before, a := After(fold, s, actions, n - 1), actions[n - 1];
      assert Fair(fold, before, g) && Mild(fold, before, a, g);
      AfterNext(fold, s, actions, n - 1);
      StepKeepsRacing(fold, before, a, g);
    }
  }

  /** A `resolve_identity` that obtained the claim g and was not aborted. */
  predicate Finished(fold: string -> string, task: Task, g: Claim) {
    && task.job.Resolve? && task.at.Done? && !task.at.outcome.Crashed?
    && task.at.about.Some? && Same(fold, task.at.about.value, g)
  }

  predicate LookedUp(task: Task, g: Claim) {
    task.job.Resolve? && task.at.Done? && task.at.outcome.Found? && task.job.user.oid == g.oid
  }

  /** One row at most is about g; calls that finish are answered with it, and lookups by the canonical ID find no other. */
  predicate Agree(fold: string -> string, rows: seq<Mapping>, a: Task, b: Task, g: Claim) {
    && OneWinner(fold, rows, g)
    && (Finished(fold, a, g) ==> a.at.outcome.Provisioned? && a.at.outcome.mapping in rows)
    && (Finished(fold, a, g) && Finished(fold, b, g) ==>
      b.at.outcome.Provisioned? && a.at.outcome.mapping == b.at.outcome.mapping)
    && (Finished(fold, a, g) && LookedUp(b, g) ==> a.at.outcome.mapping == b.at.outcome.mapping)
  }

  /**
    Start with no row about the user or employee of g and no task. Then, however tasks interleave and
    however their tokens spell the object ID: at most one row about g is ever inserted, every
    `resolve_identity` that D365 answered with g and that ran to its end returned that row, and no lookup
    by the canonical ID finds another one. Meanwhile an administrator may do to the rest of the table what
    its constraints allow.
  */
  lemma RacersAgree(fold: string -> string, s: System, actions: seq<Action>, g: Claim, t: nat, u: nat)
    requires s.tasks == map[] && (forall r :: r in s.db.rows ==> !Touches(fold, r, g))
    requires Undisturbed(fold, s, actions, g) && FairThroughout(fold, s, actions, g)
    requires t in Run(fold, s, actions).tasks && u in Run(fold, s, actions).tasks
    ensures var s' := Run(fold, s, actions);
            Agree(fold, s'.db.rows, s'.tasks[t], s'.tasks[u], g)
  {
    RunKeepsRacing(fold, s, actions, g, |actions|);
    AfterAll(fold, s, actions);
    var s' := Run(fold, s, actions);
    var a, b := s'.tasks[t], s'.tasks[u];
    assert OnCourse(fold, s'.db.rows, a, g) && OnCourse(fold, s'.db.rows, b, g);
    if Finished(fold, a, g) && (Finished(fold, b, g) || LookedUp(b, g)) {
      WinnerIsUnique(fold, s'.db.rows, a.at.outcome.mapping, b.at.outcome.mapping, g);
    }
  }

  lemma WinnerIsUnique(fold: string -> string, rows: seq<Mapping>, m: Mapping, n: Mapping, g: Claim)
    requires OneWinner(fold, rows, g) && IsWinner(fold, rows, m, g) && IsWinner(fold, rows, n, g)
    ensures m == n
  {
    var i :| 0 <= i < |rows| && rows[i] == m;
    var j :| 0 <= j < |rows| && rows[j] == n;
    assert Touches(fold, rows[i], g) && Touches(fold, rows[j], g);
  }

  // Calls that come after the race.

  /** Once the row is there, a lookup by the canonical ID answers with it. */
  lemma LookupFindsWinner(fold: string -> string, rows: seq<Mapping>, user: User, required: bool, w: Mapping, g: Claim)
    requires OneWinner(fold, rows, g) && IsWinner(fold, rows, w, g) && user.oid == g.oid
    ensures AfterLookup(fold, rows, user, required) == Done(Found(w), None, false)
  {
    var k :| 0 <= k < |rows| && rows[k] == w;
    assert IsSame(fold, w, g);
    forall i | 0 <= i < |rows|
      ensures rows[i].oid == Some(g.oid) <==> i == k
    {
      assert rows[i].oid == Some(g.oid) ==> Touches(fold, rows[i], g);
      assert Touches(fold, rows[k], g);
    }
    OnlyVerified(rows, g.oid, k);
  }

  /** A later call with the canonical ID: not yet run, aborted, or answered with w at once. */
  predicate AnsweredWith(task: Task, w: Mapping, g: Claim) {
    task.job.Resolve? && task.job.user.oid == g.oid ==>
      task.at == Starting || task.at == Done(Crashed, None, false) || task.at == Done(Found(w), None, false)
  }

  /** From `mid` on: w stays the one row about g, and new calls are answered with it. */
  predicate Settled(fold: string -> string, mid: System, s: System, w: Mapping, g: Claim) {
    && IsWinner(fold, s.db.rows, w, g) && OneWinner(fold, s.db.rows, g)
    && (forall t :: t in mid.tasks ==> t in s.tasks)
    && (forall t :: t in s.tasks && t !in mid.tasks ==> AnsweredWith(s.tasks[t], w, g))
  }

  lemma StepKeepsSettled(fold: string -> string, mid: System, s: System, a: Action, w: Mapping, g: Claim)
    requires Settled(fold, mid, s, w, g)
    requires OneWinner(fold, Exec(fold, s, a).db.rows, g) && Keeps(fold, s.db.rows, Exec(fold, s, a).db.rows, g)
    ensures Settled(fold, mid, Exec(fold, s, a), w, g)
  {
    var s' := Exec(fold, s, a);
    if a.Advance? && a.t in s.tasks {
      var task := s.tasks[a.t];
      if a.t !in mid.tasks && task.at == Starting && task.job.Resolve? && task.job.user.oid == g.oid {
        LookupFindsWinner(fold, s.db.rows, task.job.user, task.job.required, w, g);
      }
      assert a.t !in mid.tasks ==> AnsweredWith(s'.tasks[a.t], w, g);
    }
  }

  lemma SettledAtFirst(fold: string -> string, mid: System, w: Mapping, g: Claim)
    requires OneWinner(fold, mid.db.rows, g) && IsWinner(fold, mid.db.rows, w, g)
    ensures Settled(fold, mid, mid, w, g)
  {
  }

  lemma SettledNext(fold: string -> string, mid: System, s: System, a: Action, w: Mapping, g: Claim)
    requires Settled(fold, mid, s, w, g) && Calm(fold, s, a, g)
    ensures Settled(fold, mid, Exec(fold, s, a), w, g)
  {
    StepKeepsWinner(fold, s, a, g);
    StepKeepsSettled(fold, mid, s, a, w, g);
  }

  /** What holds before each action of the race. */
  predicate Calm(fold: string -> string, s: System, a: Action, g: Claim) {
    Racing(fold, s, g) && Fair(fold, s, g) && Mild(fold, s, a, g)
  }

  lemma CalmAt(fold: string -> string, s: System, actions: seq<Action>, g: Claim, n: nat)
    requires Racing(fold, s, g) && n < |actions|
    requires Undisturbed(fold, s, actions, g) && FairThroughout(fold, s, actions, g)
    ensures Calm(fold, After(fold, s, actions, n), actions[n], g)
  {
    RunKeepsRacing(fold, s, actions, g, n);
  }

  predicate CalmFrom(fold: string -> string, s: System, actions: seq<Action>, g: Claim, k: nat) {
    forall i :: k <= i < |actions| ==> Calm(fold, After(fold, s, actions, i), actions[i], g)
  }

  lemma {:induction false} SettledFrom(fold: string -> string, s: System, actions: seq<Action>, k: nat, n: nat, w: Mapping, g: Claim)
    requires k <= n <= |actions| && CalmFrom(fold, s, actions, g, k)
    requires IsWinner(fold, After(fold, s, actions, k).db.rows, w, g) && OneWinner(fold, After(fold, s, actions, k).db.rows, g)
    ensures Settled(fold, After(fold, s, actions, k), After(fold, s, actions, n), w, g)
  {
    var mid := After(fold, s, actions, k);
    if n == k {
      SettledAtFirst(fold, mid, w, g);
    } else {
      SettledFrom(fold, s, actions, k, n - 1, w, g);
      AfterNext(fold, s, actions, n - 1);
      SettledNext(fold, mid, After(fold, s, actions, n - 1), actions[n - 1], w, g);
    }
  }

  /**
    Repeating the call later: if after k actions the row about g is there, then to the end of the run it
    stays the only one about g, and every call with the canonical ID that starts after them is answered
    with that very row as soon as it runs, unless it is aborted.
  */
  lemma LaterCallsReturnTheRow(fold: string -> string, s: System, actions: seq<Action>, g: Claim, k: nat)
    requires s.tasks == map[] && (forall r :: r in s.db.rows ==> !Touches(fold, r, g))
    requires Undisturbed(fold, s, actions, g) && FairThroughout(fold, s, actions, g)
    requires k <= |actions| && Won(fold, After(fold, s, actions, k).db.rows, g)
    ensures exists w ::
      && IsWinner(fold, After(fold, s, actions, k).db.rows, w, g)
      && Settled(fold, After(fold, s, actions, k), Run(fold, s, actions), w, g)
      && forall user: User, required | user.oid == g.oid ::
        AfterLookup(fold, Run(fold, s, actions).db.rows, user, required) == Done(Found(w), None, false)
  {
    var w :| w in After(fold, s, actions, k).db.rows && Touches(fold, w, g);
    forall i | k <= i < |actions|
      ensures Calm(fold, After(fold, s, actions, i), actions[i], g)
    {
      CalmAt(fold, s, actions, g, i);
    }
    RunKeepsRacing(fold, s, actions, g, k);
    SettledFrom(fold, s, actions, k, |actions|, w, g);
    AfterAll(fold, s, actions);
    var rows := Run(fold, s, actions).db.rows;
    forall user: User, required | user.oid == g.oid
      ensures AfterLookup(fold, rows, user, required) == Done(Found(w), None, false)
    {
      LookupFindsWinner(fold, rows, user, required, w, g);
    }
  }
}
