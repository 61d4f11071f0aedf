/** What holds in every state of every run: canonical IDs, aligned history, and only verified answers. */
module IdentitySafety {
  import opened Wrappers
  import opened Text
  import opened PyJson
  import opened Uuid
  import opened Identity
  import opened IdentitySystem

  function JobOid(job: Job): string {
    if job.Resolve? then job.user.oid else job.oid
  }

  /** The claim is about the object ID its task was started for, in canonical form. */
  predicate About(job: Job, c: Claim) {
    Canonical(JobOid(job)) == Some(c.oid)
  }

  predicate Records(h: History, m: Mapping) {
    h.mappingId == m.id && m.oid == Some(h.oid) && m.personnel == h.personnel && m.company == Some(h.company)
  }

  predicate IsDraft(m: Mapping, h: History, c: Claim) {
    && m.oid == Some(c.oid) && m.personnel == c.personnel && m.company == Some(c.company)
    && m.verified && m.enabled
    && Records(h, m)
  }

  predicate AsksFor(fold: string -> string, job: Job, upn: string, oid: string) {
    job.Resolve? && Canonical(job.user.oid) == Some(oid) && upn == Upn(fold, job.user)
  }

  /** What a task may remember or have answered. */
  predicate TaskOk(fold: string -> string, task: Task) {
    match task.at
    case Starting => true
    case Configuring(upn, oid) => AsksFor(fold, task.job, upn, oid)
    case Asking(upn, oid, _) => AsksFor(fold, task.job, upn, oid)
    case Reading(_, c) => task.job.Resolve? && About(task.job, c)
    case Committing(c, m, h) => About(task.job, c) && IsDraft(m, h, c)
    case Rereading(c) => task.job.Resolve? && About(task.job, c)
    case Auditing(c, m, _) => task.job.Resolve? && About(task.job, c) && IsSame(fold, m, c)
    case Done(outcome, about, inserted) =>
      && (about.Some? ==> About(task.job, about.value))
      && (inserted ==> outcome.Provisioned? || outcome.Created? || outcome.Crashed?)
      && match outcome
         case Found(m) => task.job.Resolve? && m.oid == Some(task.job.user.oid) && m.enabled && m.verified
         case Provisioned(m) => task.job.Resolve? && about.Some? && IsSame(fold, m, about.value)
         case Created(m) => task.job.Create? && inserted && about.Some? && IsSame(fold, m, about.value)
         case _ => true
  }

  predicate TasksOk(fold: string -> string, s: System) {
    forall t :: t in s.tasks ==> TaskOk(fold, s.tasks[t])
  }

  lemma LookupKeepsTask(fold: string -> string, rows: seq<Mapping>, user: User, required: bool)
    ensures TaskOk(fold, Task(Resolve(user, required), AfterLookup(fold, rows, user, required)))
  {
    VerifiedRowsExactly(rows, user.oid);
    var found := VerifiedRows(rows, user.oid);
    assert |found| == 1 ==> found[0] in found;
  }

  lemma ReadKeepsTask(fold: string -> string, rows: seq<Mapping>, user: User, required: bool, upn: string, c: Claim, id: nat)
    requires About(Resolve(user, required), c)
    ensures TaskOk(fold, Task(Resolve(user, required), AfterRead(fold, rows, user, upn, c, id)))
    ensures TaskOk(fold, Task(Resolve(user, required), Agreed(fold, ConflictRows(rows, c), c)))
  {
  }

  lemma ManualReadKeepsTask(fold: string -> string, rows: seq<Mapping>, job: Job, id: nat)
    requires job.Create?
    ensures TaskOk(fold, Task(job, AfterManualRead(fold, rows, job, id)))
  {
  }

  lemma CommitKeepsTask(fold: string -> string, db: Db, job: Job, c: Claim, m: Mapping, h: History)
    requires About(job, c) && IsDraft(m, h, c)
    ensures TaskOk(fold, Task(job, Commit(db, job, c, m, h).1))
  {
  }

  lemma ReplyKeepsTask(fold: string -> string, reply: Reply, user: User, required: bool, upn: string, oid: string, f: Fields)
    requires AsksFor(fold, Resolve(user, required), upn, oid)
    ensures TaskOk(fold, Task(Resolve(user, required), AfterReply(fold, reply, upn, oid, f, required)))
  {
  }

  lemma SegmentKeepsTask(fold: string -> string, db: Db, job: Job, p: Phase, i: Input)
    requires TaskOk(fold, Task(job, p))
    ensures TaskOk(fold, Task(job, Segment(fold, db, job, p, i).1))
  {
    match p {
      case Starting =>
        if job.Resolve? {
          LookupKeepsTask(fold, db.rows, job.user, job.required);
        } else {
          ManualReadKeepsTask(fold, db.rows, job, i.id);
        }
      case Asking(upn, oid, f) => ReplyKeepsTask(fold, i.reply, job.user, job.required, upn, oid, f);
      case Reading(upn, c) => ReadKeepsTask(fold, db.rows, job.user, job.required, upn, c, i.id);
      case Rereading(c) => ReadKeepsTask(fold, db.rows, job.user, job.required, "", c, i.id);
      case Committing(c, m, h) => CommitKeepsTask(fold, db, job, c, m, h);
      case _ =>
    }
  }

  lemma StepKeepsTasks(fold: string -> string, s: System, a: Action)
    requires TasksOk(fold, s)
    ensures TasksOk(fold, Exec(fold, s, a))
  {
    if a.Advance? && a.t in s.tasks {
      SegmentKeepsTask(fold, s.db, s.tasks[a.t].job, s.tasks[a.t].at, a.input);
    }
  }

  /** True under every action, whatever is done to the table from outside. */
  lemma {:induction false} RunKeepsTasks(fold: string -> string, s: System, actions: seq<Action>)
    requires TasksOk(fold, s)
    ensures TasksOk(fold, Run(fold, s, actions))
  {
    if actions != [] {
      RunKeepsTasks(fold, s, actions[..|actions| - 1]);
      StepKeepsTasks(fold, Run(fold, s, actions[..|actions| - 1]), actions[|actions| - 1]);
    }
  }

  /** A task's segment leaves the tables alone, or is the commit that adds its one draft to both. */
  lemma SegmentEffect(fold: string -> string, db: Db, job: Job, p: Phase, i: Input)
    ensures
      var (db', p') := Segment(fold, db, job, p, i);
      || (db' == db && (Inserted(p') <==> Inserted(p)))
      || (&& p.Committing? && Admits(db.rows, p.mapping)
          && db' == Db(db.rows + [p.mapping], db.history + [p.history])
          && !Inserted(p) && Inserted(p'))
  {
  }

  // Runs of the two writers, with an administrator who only changes flags.

  predicate WritersOnly(actions: seq<Action>) {
    forall a :: a in actions ==> !a.Replace?
  }

  /** The same row up to its flags. */
  predicate SameRow(r: Mapping, m: Mapping) {
    r.(verified := m.verified, enabled := m.enabled) == m
  }

  predicate InTable(rows: seq<Mapping>, m: Mapping) {
    exists i :: 0 <= i < |rows| && SameRow(rows[i], m)
  }

  predicate TablesOk(db: Db) {
    && Consistent(db.rows)
    && (forall r :: r in db.rows ==> r.oid.Some? && IsCanonical(r.oid.value))
    && |db.history| == |db.rows|
    && (forall i :: 0 <= i < |db.rows| ==> Records(db.history[i], db.rows[i]))
  }

  /** Every answered mapping is a row of the table, up to later changes of its flags. */
  predicate AnswersOk(s: System) {
    forall t :: t in s.tasks ==>
      match s.tasks[t].at
      case Auditing(_, m, _) => InTable(s.db.rows, m)
      case Done(outcome, _, _) =>
        (match outcome
         case Found(m) => InTable(s.db.rows, m)
         case Provisioned(m) => InTable(s.db.rows, m)
         case Created(m) => InTable(s.db.rows, m)
         case _ => true)
      case _ => true
  }

  predicate Safe(fold: string -> string, s: System) {
    TasksOk(fold, s) && TablesOk(s.db) && AnswersOk(s)
  }

  predicate Extends(rows: seq<Mapping>, rows': seq<Mapping>) {
    |rows| <= |rows'| && forall i :: 0 <= i < |rows| ==> SameRow(rows[i], rows'[i])
  }

  lemma ExtendedTable(rows: seq<Mapping>, rows': seq<Mapping>, m: Mapping)
    requires Extends(rows, rows') && InTable(rows, m)
    ensures InTable(rows', m)
  {
    var i :| 0 <= i < |rows| && SameRow(rows[i], m);
    assert SameRow(rows'[i], m);
  }

  lemma MemberInTable(rows: seq<Mapping>, m: Mapping)
    requires m in rows
    ensures InTable(rows, m)
  {
    var i :| 0 <= i < |rows| && rows[i] == m;
    assert SameRow(rows[i], m);
  }

  lemma FlagsKeepTables(db: Db, row: nat, verified: bool, enabled: bool)
    requires TablesOk(db) && row < |db.rows|
    ensures var rows := db.rows[row := db.rows[row].(verified := verified, enabled := enabled)];
            TablesOk(db.(rows := rows)) && Extends(db.rows, rows)
  {
    var rows := db.rows[row := db.rows[row].(verified := verified, enabled := enabled)];
    forall i, j | 0 <= i < j < |rows|
      ensures !Collide(rows[i], rows[j])
    {
      assert !Collide(db.rows[i], db.rows[j]);
    }
    forall r | r in rows
      ensures r.oid.Some? && IsCanonical(r.oid.value)
    {
      var i :| 0 <= i < |rows| && rows[i] == r;
      assert db.rows[i] in db.rows;
    }
    forall i | 0 <= i < |rows|
      ensures Records(db.history[i], rows[i])
    {
      assert Records(db.history[i], db.rows[i]);
    }
  }

  /** The row a segment answers with was read from the table, or has just been written. */
  lemma SegmentAnswers(fold: string -> string, db: Db, job: Job, p: Phase, i: Input)
    ensures
      var (db', p') := Segment(fold, db, job, p, i);
      && (p'.Auditing? ==> p'.mapping in db'.rows)
      && (p'.Done? && p'.outcome.Found? && !p.Done? ==> p'.outcome.mapping in db'.rows)
      && (p'.Done? && p'.outcome.Created? && !p.Done? ==> p'.outcome.mapping in db'.rows)
      && (p'.Done? && p'.outcome.Provisioned? && !p.Done? ==> p.Auditing? && p.mapping == p'.outcome.mapping)
  {
    match p {
      case Starting =>
        if job.Resolve? {
          VerifiedRowsExactly(db.rows, job.user.oid);
          var found := VerifiedRows(db.rows, job.user.oid);
          assert |found| == 1 ==> found[0] in found;
        }
      case Reading(_, c) => ExistingInRows(db.rows, c);
      case Rereading(c) => ExistingInRows(db.rows, c);
      case _ =>
    }
  }

  lemma ExistingInRows(rows: seq<Mapping>, c: Claim)
    ensures |ConflictRows(rows, c)| == 1 ==> ConflictRows(rows, c)[0] in rows
  {
    ConflictRowsExactly(rows, c);
    var existing := ConflictRows(rows, c);
    assert |existing| == 1 ==> existing[0] in existing;
  }

  lemma AdvanceKeepsTables(fold: string -> string, db: Db, job: Job, p: Phase, i: Input)
    requires TaskOk(fold, Task(job, p)) && TablesOk(db)
    ensures var db' := Segment(fold, db, job, p, i).0; TablesOk(db') && Extends(db.rows, db'.rows)
  {
    SegmentEffect(fold, db, job, p, i);
    if p.Committing? && Admits(db.rows, p.mapping) {
      CanonicalText(JobOid(job), JobOid(job));
    }
  }

  lemma StepKeepsSafe(fold: string -> string, s: System, a: Action)
    requires Safe(fold, s) && !a.Replace?
    ensures Safe(fold, Exec(fold, s, a))
  {
    var s' := Exec(fold, s, a);
    StepKeepsTasks(fold, s, a);
    if a.Advance? && a.t in s.tasks {
      var task := s.tasks[a.t];
      assert task == Task(task.job, task.at) && TaskOk(fold, task);
      AdvanceKeepsTables(fold, s.db, task.job, task.at, a.input);
      SegmentAnswers(fold, s.db, task.job, task.at, a.input);
      AnswersGrow(s, s', a.t);
    } else if a.SetFlags? && a.row < |s.db.rows| {
      FlagsKeepTables(s.db, a.row, a.verified, a.enabled);
      AllAnswersGrow(s, s');
    }
  }

  lemma AllAnswersGrow(s: System, s': System)
    requires AnswersOk(s) && Extends(s.db.rows, s'.db.rows) && s'.tasks == s.tasks
    ensures AnswersOk(s')
  {
    forall m | InTable(s.db.rows, m)
      ensures InTable(s'.db.rows, m)
    {
      ExtendedTable(s.db.rows, s'.db.rows, m);
    }
  }

  lemma AnswersGrow(s: System, s': System, t: nat)
    requires AnswersOk(s) && Extends(s.db.rows, s'.db.rows)
    requires t in s.tasks && t in s'.tasks && s'.tasks == s.tasks[t := s'.tasks[t]]
    requires
      var p, p' := s.tasks[t].at, s'.tasks[t].at;
      && (p'.Auditing? ==> p'.mapping in s'.db.rows)
      && (p'.Done? && p'.outcome.Found? && !p.Done? ==> p'.outcome.mapping in s'.db.rows)
      && (p'.Done? && p'.outcome.Created? && !p.Done? ==> p'.outcome.mapping in s'.db.rows)
      && (p'.Done? && p'.outcome.Provisioned? && !p.Done? ==> p.Auditing? && p.mapping == p'.outcome.mapping)
      && (p.Done? ==> p' == p)
    ensures AnswersOk(s')
  {
    AllAnswersGrow(s, s'.(tasks := s.tasks));
    forall m | m in s'.db.rows
      ensures InTable(s'.db.rows, m)
    {
      MemberInTable(s'.db.rows, m);
    }
  }

  lemma {:induction false} RunKeepsSafe(fold: string -> string, s: System, actions: seq<Action>)
    requires Safe(fold, s) && WritersOnly(actions)
    ensures Safe(fold, Run(fold, s, actions))
  {
    if actions != [] {
      assert actions[|actions| - 1] in actions;
      assert forall a :: a in actions[..|actions| - 1] ==> a in actions;
      RunKeepsSafe(fold, s, actions[..|actions| - 1]);
      StepKeepsSafe(fold, Run(fold, s, actions[..|actions| - 1]), actions[|actions| - 1]);
    }
  }

  const EMPTY: System := System(Db([], []), map[])

  /**
    From an empty table, in every interleaving: rows have distinct canonical object IDs, so no two denote
    the same 128-bit ID; history row i records mapping row i; and every answer is what it should be.
  */
  lemma EveryRunIsSafe(fold: string -> string, actions: seq<Action>, i: nat, j: nat, t: nat)
    requires WritersOnly(actions)
    ensures
      var s := Run(fold, EMPTY, actions);
      && |s.db.history| == |s.db.rows|
      && (i < |s.db.rows| ==>
        && s.db.rows[i].oid.Some? && IsCanonical(s.db.rows[i].oid.value)
        && Records(s.db.history[i], s.db.rows[i]))
      && (i < j < |s.db.rows| ==>
        && s.db.rows[i].id != s.db.rows[j].id
        && s.db.rows[j].oid.Some?
        && Parse(s.db.rows[i].oid.value) != Parse(s.db.rows[j].oid.value))
      && (t in s.tasks && s.tasks[t].at.Done? && s.tasks[t].at.outcome.Provisioned? ==>
        var m := s.tasks[t].at.outcome.mapping;
        var c := s.tasks[t].at.about;
        && s.tasks[t].job.Resolve? && c.Some?
        && m.enabled && m.verified
        && m.oid == Canonical(s.tasks[t].job.user.oid) == Some(c.value.oid)
        && m.personnel == c.value.personnel
        && fold(CompanyText(m)) == fold(c.value.company)
        && InTable(s.db.rows, m))
  {
    RunKeepsSafe(fold, EMPTY, actions);
    var s := Run(fold, EMPTY, actions);
    if i < |s.db.rows| {
      assert s.db.rows[i] in s.db.rows;
      if i < j < |s.db.rows| {
        assert s.db.rows[j] in s.db.rows && !Collide(s.db.rows[i], s.db.rows[j]);
        CanonicalText(s.db.rows[i].oid.value, s.db.rows[j].oid.value);
      }
    }
    if t in s.tasks {
      assert TaskOk(fold, s.tasks[t]);
    }
  }

  /** A claim is made exactly for one D365 record that carries the object ID and the UPN asked for. */
  lemma ClaimsAreConfirmed(fold: string -> string, db: Db, job: Job, upn: string, oid: string, f: Fields, i: Input)
    requires job.Resolve?
    ensures
      var p := Segment(fold, db, job, Asking(upn, oid, f), i).1;
      p.Reading? <==>
        && i.reply.Entries? && |i.reply.entries| == 1 && i.reply.entries[0].Record?
        && var row := i.reply.entries[0].row;
        && Canonical(PyStr(Get(row, f.entraOid))) == Some(oid)
        && Strip(fold(GetText(row, f.entraUpn))) == upn
        && Fits(Strip(GetText(row, f.personnelNumber)), Strip(GetText(row, f.company)))
        && p == Reading(upn, Claim(oid, Strip(GetText(row, f.personnelNumber)), Strip(GetText(row, f.company))))
  {
  }

  /** Action `a` gives task t the one D365 record that carries its user's object ID and UPN and confirms c. */
  predicate Confirms(fold: string -> string, s: System, a: Action, t: nat, c: Claim) {
    && a.Advance? && a.t == t && t in s.tasks && s.tasks[t].job.Resolve? && s.tasks[t].at.Asking?
    && a.input.reply.Entries? && |a.input.reply.entries| == 1 && a.input.reply.entries[0].Record?
    && var user, f, row := s.tasks[t].job.user, s.tasks[t].at.fields, a.input.reply.entries[0].row;
    && Canonical(PyStr(Get(row, f.entraOid))) == Canonical(user.oid) == Some(c.oid)
    && Strip(fold(GetText(row, f.entraUpn))) == Upn(fold, user)
    && Strip(GetText(row, f.personnelNumber)) == c.personnel
    && Strip(GetText(row, f.company)) == c.company
  }

  predicate ConfirmedIn(fold: string -> string, actions: seq<Action>, t: nat, c: Claim) {
    exists k :: 0 <= k < |actions| && Confirms(fold, After(fold, EMPTY, actions, k), actions[k], t, c)
  }

  /** A claim stays the one its task made, and is made only of a D365 record. */
  lemma SegmentKeepsClaim(fold: string -> string, db: Db, job: Job, p: Phase, i: Input)
    requires TaskOk(fold, Task(job, p)) && job.Resolve? && !p.Asking?
    ensures ClaimOf(Segment(fold, db, job, p, i).1) in {None, ClaimOf(p)}
  {
  }

  lemma AskConfirms(fold: string -> string, s: System, t: nat, i: Input)
    requires TasksOk(fold, s) && t in s.tasks && s.tasks[t].at.Asking?
    ensures
      var task := Exec(fold, s, Advance(t, i)).tasks[t];
      ClaimOf(task.at).Some? ==> Confirms(fold, s, Advance(t, i), t, ClaimOf(task.at).value)
  {
    assert TaskOk(fold, s.tasks[t]);
  }

  lemma StepConfirms(fold: string -> string, s: System, a: Action, t: nat)
    requires TasksOk(fold, s) && t in Exec(fold, s, a).tasks
    ensures
      var task := Exec(fold, s, a).tasks[t];
      task.job.Resolve? && ClaimOf(task.at).Some? ==>
        || (t in s.tasks && s.tasks[t].job.Resolve? && ClaimOf(s.tasks[t].at) == ClaimOf(task.at))
        || Confirms(fold, s, a, t, ClaimOf(task.at).value)
  {
    if a.Advance? && a.t == t && t in s.tasks && s.tasks[t].job.Resolve? {
      var task := s.tasks[t];
      assert task == Task(task.job, task.at) && TaskOk(fold, task);
      if task.at.Asking? {
        AskConfirms(fold, s, t, a.input);
      } else {
        SegmentKeepsClaim(fold, s.db, task.job, task.at, a.input);
      }
    }
  }

  /** No task comes by a claim except through a D365 record, whatever is done to the table from outside. */
  lemma {:induction false} ClaimsComeFromD365(fold: string -> string, actions: seq<Action>, t: nat)
    requires t in Run(fold, EMPTY, actions).tasks
    ensures
      var task := Run(fold, EMPTY, actions).tasks[t];
      task.job.Resolve? && ClaimOf(task.at).Some? ==> ConfirmedIn(fold, actions, t, ClaimOf(task.at).value)
  {
    if actions != [] {
      var n := |actions| - 1;
      var front := actions[..n];
      var mid := Run(fold, EMPTY, front);
      var task := Run(fold, EMPTY, actions).tasks[t];
      RunKeepsTasks(fold, EMPTY, front);
      if task.job.Resolve? && ClaimOf(task.at).Some? {
        var c := ClaimOf(task.at).value;
        StepConfirms(fold, mid, actions[n], t);
        if Confirms(fold, mid, actions[n], t, c) {
          AfterAll(fold, EMPTY, actions);
        } else {
          ClaimsComeFromD365(fold, front, t);
          ConfirmedLater(fold, actions, t, c);
        }
      }
    }
  }

  lemma ConfirmedLater(fold: string -> string, actions: seq<Action>, t: nat, c: Claim)
    requires actions != [] && ConfirmedIn(fold, actions[..|actions| - 1], t, c)
    ensures ConfirmedIn(fold, actions, t, c)
  {
    var front := actions[..|actions| - 1];
    var k :| 0 <= k < |front| && Confirms(fold, After(fold, EMPTY, front, k), front[k], t, c);
    AfterFront(fold, EMPTY, actions, k);
  }

  /**
    Every mapping that `provision` returned, in any run: it is enabled and verified, and during that very
    call D365 confirmed the caller's object ID and UPN with this personnel number and, up to case, this company.
  */
  lemma ProvisionedIsConfirmed(fold: string -> string, actions: seq<Action>, t: nat)
    requires t in Run(fold, EMPTY, actions).tasks
    ensures
      var task := Run(fold, EMPTY, actions).tasks[t];
      task.at.Done? && task.at.outcome.Provisioned? ==>
        var m := task.at.outcome.mapping;
        && m.enabled && m.verified
        && exists c ::
          && ConfirmedIn(fold, actions, t, c)
          && m.oid == Some(c.oid) && m.personnel == c.personnel && fold(CompanyText(m)) == fold(c.company)
  {
    RunKeepsTasks(fold, EMPTY, actions);
    assert TaskOk(fold, Run(fold, EMPTY, actions).tasks[t]);
    ClaimsComeFromD365(fold, actions, t);
  }

  // One row per writer.

  function Writers(s: System): set<nat> {
    set t | t in s.tasks && Inserted(s.tasks[t].at)
  }

  /** Rows are conserved: the table grows by exactly one mapping and one history row for each task that inserted. */
  lemma {:induction false} OneRowPerWriter(fold: string -> string, s: System, actions: seq<Action>)
    requires WritersOnly(actions) && s.tasks == map[]
    ensures
      var s' := Run(fold, s, actions);
      && |s'.db.rows| == |s.db.rows| + |Writers(s')|
      && |s'.db.history| == |s.db.history| + |Writers(s')|
      && s.db.history <= s'.db.history
      && Extends(s.db.rows, s'.db.rows)
  {
    if actions == [] {
      assert Writers(s) == {};
    } else {
      assert actions[|actions| - 1] in actions;
      assert forall a :: a in actions[..|actions| - 1] ==> a in actions;
      var mid := Run(fold, s, actions[..|actions| - 1]);
      var a := actions[|actions| - 1];
      OneRowPerWriter(fold, s, actions[..|actions| - 1]);
      StepCounts(fold, mid, a);
    }
  }

  lemma StepCounts(fold: string -> string, s: System, a: Action)
    requires !a.Replace?
    ensures
      var s' := Exec(fold, s, a);
      && |s'.db.rows| - |s.db.rows| == |Writers(s')| - |Writers(s)| == |s'.db.history| - |s.db.history|
      && s.db.history <= s'.db.history && Extends(s.db.rows, s'.db.rows)
  {
    var s' := Exec(fold, s, a);
    if a.Advance? && a.t in s.tasks {
      SegmentEffect(fold, s.db, s.tasks[a.t].job, s.tasks[a.t].at, a.input);
      if s'.db == s.db {
        assert Writers(s') == Writers(s);
      } else {
        assert Writers(s') == Writers(s) + {a.t};
      }
    } else {
      assert Writers(s') == Writers(s);
    }
  }
}
