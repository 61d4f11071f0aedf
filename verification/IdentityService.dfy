/**
  `resolve_identity`, `provision` and the manual tool as they are written, against tables that other
  tasks may change at every suspension, proved to run the segments of module Identity.
*/
module IdentityService {
  import opened Wrappers
  import opened Text
  import opened PyJson
  import opened ODataQuery
  import opened Uuid
  import opened Identity
  import opened IdentitySystem

  /** The tables as each statement finds them, and what the outside world answers. */
  datatype Waits = Waits(atLookup: Db, atRead: Db, atCommit: Db, atReread: Db, input: Input)

  /** The tables a task finds when it resumes in phase p. */
  function TablesAt(w: Waits, p: Phase, db: Db): Db {
    match p
    case Starting => w.atLookup
    case Reading(_, _) => w.atRead
    case Committing(_, _, _) => w.atCommit
    case Rereading(_) => w.atReread
    case _ => db
  }

  /** The segments from phase p to the end, and the tables after the last statement. */
  function Conclude(fold: string -> string, job: Job, db: Db, p: Phase, w: Waits): (Db, Phase)
    decreases Rank(p)
  {
    if p.Done? then (db, p)
    else
      var (db', p') := Segment(fold, TablesAt(w, p, db), job, p, w.input);
      Conclude(fold, job, db', p', w)
  }

  /** The phase a segment leads to, with what `w` supplies. */
  function Next(fold: string -> string, job: Job, p: Phase, w: Waits): Phase {
    Segment(fold, TablesAt(w, p, Db([], [])), job, p, w.input).1
  }

  /** Phase p is on the way of `job` from phase q to the end. */
  predicate Reaches(fold: string -> string, job: Job, q: Phase, p: Phase, w: Waits)
    decreases Rank(q)
  {
    q == p || (!q.Done? && Reaches(fold, job, Next(fold, job, q, w), p, w))
  }

  /** `w` with the tables and the input that a task really finds in phase p. */
  function Observed(w: Waits, job: Job, p: Phase, db: Db, i: Input): Waits {
    match p
    case Starting => w.(atLookup := db, input := if job.Create? then w.input.(id := i.id) else w.input)
    case Configuring(_, _) => w.(input := w.input.(config := i.config))
    case Asking(_, _, _) => w.(input := w.input.(reply := i.reply))
    case Reading(_, _) => w.(atRead := db, input := if job.Resolve? then w.input.(id := i.id) else w.input)
    case Committing(_, _, _) => w.(atCommit := db)
    case Rereading(_) => w.(atReread := db)
    case _ => w
  }

  lemma {:induction false} ReachesFurther(
    fold: string -> string, job: Job, q: Phase, p: Phase, w: Waits, db: Db, i: Input)
    requires Reaches(fold, job, q, p, w) && !p.Done?
    ensures Rank(q) >= Rank(p)
    ensures Reaches(fold, job, q, Segment(fold, db, job, p, i).1, Observed(w, job, p, db, i))
    decreases Rank(q)
  {
    if q != p {
      ReachesFurther(fold, job, Next(fold, job, q, w), p, w, db, i);
    }
  }

  lemma {:induction false} ConcludeReaches(fold: string -> string, job: Job, db: Db, q: Phase, p: Phase, w: Waits)
    requires Reaches(fold, job, q, p, w) && p.Done?
    ensures Conclude(fold, job, db, q, w).1 == p
    decreases Rank(q)
  {
    if q != p {
      var (db', q') := Segment(fold, TablesAt(w, q, db), job, q, w.input);
      ConcludeReaches(fold, job, db', q', p, w);
    }
  }

  /** If the action runs a segment of task t, `w` holds the tables and the input that segment finds. */
  predicate Agrees(s: System, a: Action, t: nat, w: Waits) {
    Steps(s, a, t) ==> Observed(w, s.tasks[t].job, s.tasks[t].at, s.db, a.input) == w
  }

  /** `w` is what task t meets in the first n actions. */
  predicate Met(fold: string -> string, s: System, actions: seq<Action>, n: nat, t: nat, w: Waits)
    requires n <= |actions|
  {
    forall k :: 0 <= k < n ==> Agrees(After(fold, s, actions, k), actions[k], t, w)
  }

  lemma MetSoFar(fold: string -> string, s: System, actions: seq<Action>, n: nat, t: nat, w: Waits)
    requires n < |actions| && Met(fold, s, actions, n, t, w) && t in After(fold, s, actions, n).tasks
    requires Steps(After(fold, s, actions, n), actions[n], t)
    ensures
      var now := After(fold, s, actions, n);
      Met(fold, s, actions, n + 1, t, Observed(w, now.tasks[t].job, now.tasks[t].at, now.db, actions[n].input))
  {
    var now := After(fold, s, actions, n);
    var job, p := now.tasks[t].job, now.tasks[t].at;
    var w' := Observed(w, job, p, now.db, actions[n].input);
    forall k | 0 <= k < n + 1
      ensures Agrees(After(fold, s, actions, k), actions[k], t, w')
    {
      var earlier := After(fold, s, actions, k);
      if k < n && t in earlier.tasks {
        RankFalls(fold, s, actions, t, k, n);
      }
    }
  }

  lemma NotMetYet(fold: string -> string, s: System, actions: seq<Action>, n: nat, t: nat, w: Waits)
    requires n < |actions| && t !in After(fold, s, actions, n).tasks
    ensures Met(fold, s, actions, n + 1, t, w)
  {
    forall k | 0 <= k < n + 1
      ensures Agrees(After(fold, s, actions, k), actions[k], t, w)
    {
      if k < n && t in After(fold, s, actions, k).tasks {
        RankFalls(fold, s, actions, t, k, n);
      }
    }
  }

  /** `w` is what task t met, and leads it where it is. */
  predicate Traces(fold: string -> string, s: System, actions: seq<Action>, n: nat, t: nat, w: Waits)
    requires n <= |actions| && t in After(fold, s, actions, n).tasks
  {
    var task := After(fold, s, actions, n).tasks[t];
    Met(fold, s, actions, n, t, w) && Reaches(fold, task.job, Starting, task.at, w)
  }

  lemma StepTraces(fold: string -> string, s: System, actions: seq<Action>, n: nat, t: nat, w: Waits)
    requires 0 < n <= |actions| && t in After(fold, s, actions, n - 1).tasks && actions[n - 1] != Abort(t)
    requires Traces(fold, s, actions, n - 1, t, w)
    ensures t in After(fold, s, actions, n).tasks && exists w' :: Traces(fold, s, actions, n, t, w')
  {
    var now, a := After(fold, s, actions, n - 1), actions[n - 1];
    var task := now.tasks[t];
    AfterNext(fold, s, actions, n - 1);
    if Steps(now, a, t) {
      var w' := Observed(w, task.job, task.at, now.db, a.input);
      MetSoFar(fold, s, actions, n - 1, t, w);
      AdvanceTask(fold, now, t, a.input);
      ReachesFurther(fold, task.job, Starting, task.at, w, now.db, a.input);
      assert Traces(fold, s, actions, n, t, w');
    } else {
      FinishedStays(fold, now, a, t);
      assert Traces(fold, s, actions, n, t, w);
    }
  }

  lemma FirstTrace(fold: string -> string, s: System, actions: seq<Action>, n: nat, t: nat)
    requires 0 < n <= |actions| && t !in After(fold, s, actions, n - 1).tasks && t in After(fold, s, actions, n).tasks
    ensures exists w :: Traces(fold, s, actions, n, t, w)
  {
    var db := Db([], []);
    var w := Waits(db, db, db, db, Input(None, Failed, 0));
    AfterNext(fold, s, actions, n - 1);
    NotMetYet(fold, s, actions, n - 1, t, w);
    assert Met(fold, s, actions, n, t, w);
    NewTaskStarts(fold, After(fold, s, actions, n - 1), actions[n - 1], t);
    assert Traces(fold, s, actions, n, t, w);
  }

  lemma {:induction false} RunTraces(fold: string -> string, s: System, actions: seq<Action>, n: nat, t: nat)
    requires n <= |actions| && t !in s.tasks && t in After(fold, s, actions, n).tasks && Abort(t) !in actions
    ensures exists w :: Traces(fold, s, actions, n, t, w)
  {
    assert n > 0;
    if t in After(fold, s, actions, n - 1).tasks {
      RunTraces(fold, s, actions, n - 1, t);
      var w :| Traces(fold, s, actions, n - 1, t, w);
      assert actions[n - 1] in actions;
      StepTraces(fold, s, actions, n, t, w);
    } else {
      FirstTrace(fold, s, actions, n, t);
    }
  }

  /**
    However tasks interleave, a task that runs to its end ends as Conclude says, and so as the methods
    below do, for the very tables and inputs that it met at its own steps in that run.
  */
  lemma RunConcludes(fold: string -> string, s: System, actions: seq<Action>, t: nat, db: Db)
    requires t !in s.tasks && t in Run(fold, s, actions).tasks && Run(fold, s, actions).tasks[t].at.Done?
    requires Abort(t) !in actions
    ensures var task := Run(fold, s, actions).tasks[t];
            exists w :: Met(fold, s, actions, |actions|, t, w) && Conclude(fold, task.job, db, Starting, w).1 == task.at
  {
    AfterAll(fold, s, actions);
    RunTraces(fold, s, actions, |actions|, t);
    var task := Run(fold, s, actions).tasks[t];
    var w :| Traces(fold, s, actions, |actions|, t, w);
    ConcludeReaches(fold, task.job, db, Starting, task.at, w);
  }

  class IdentityTables {
    var rows: seq<Mapping>
    var history: seq<History>

    constructor ()
      ensures Contents() == Db([], [])
    {
      rows, history := [], [];
    }

    function Contents(): Db
      reads this
    {
      Db(rows, history)
    }

    /** A suspension: other tasks leave the tables as `db`. */
    method Suspend(db: Db)
      modifies this
      ensures Contents() == db
    {
      rows, history := db.rows, db.history;
    }

    /** Inserts both rows in one transaction; false is an IntegrityError, after which nothing is inserted. */
    method Insert(m: Mapping, h: History) returns (committed: bool)
      modifies this
      ensures committed <==> Admits(old(rows), m)
      ensures Contents() == if committed then Db(old(rows) + [m], old(history) + [h]) else old(Contents())
    {
      committed := Admits(rows, m);
      if committed {
        rows := rows + [m];
        history := history + [h];
      }
    }
  }

  /** How `provision` ends. */
  datatype Provision = Mapped(claim: Claim, mapping: Mapping, inserted: bool) | NoMatch | Raised(outcome: Outcome, about: Option<Claim>)

  function AsPhase(r: Provision, required: bool): Phase {
    match r
    case Mapped(c, m, inserted) => Auditing(c, m, inserted)
    case NoMatch => NoMapping(required)
    case Raised(outcome, about) => Done(outcome, about, false)
  }

  class IdentityProvisioningService {
    const tables: IdentityTables
    const fold: string -> string

    constructor (tables: IdentityTables, fold: string -> string)
      ensures this.tables == tables && this.fold == fold
    {
      this.tables := tables;
      this.fold := fold;
    }

    /** The part of `provision` from the conflict read on. */
    method InsertOrAgree(user: User, upn: string, c: Claim, w: Waits, ghost required: bool) returns (r: Provision)
      modifies tables
      ensures Conclude(fold, Resolve(user, required), tables.Contents(), AsPhase(r, required), w) ==
              Conclude(fold, Resolve(user, required), old(tables.Contents()), Reading(upn, c), w)
    {
      tables.Suspend(w.atRead);
      var existing := ConflictRows(tables.rows, c);
      if existing != [] {
        if |existing| == 1 && IsSame(fold, existing[0], c) {
          return Mapped(c, existing[0], false);
        }
        return Raised(Refused(MappingConflict), Some(c));
      }
      var email := if Falsy(user.email) then None else Some(fold(user.email.value));
      var mapping := Mapping(w.input.id, Some(c.oid), Some(upn), email, c.personnel, Some(c.company), AutoVerified, true, true);
      var history := History(mapping.id, c.oid, AutoVerified, c.oid, c.personnel, c.company);
      tables.Suspend(w.atCommit);
      var committed := tables.Insert(mapping, history);
      assert Segment(fold, w.atCommit, Resolve(user, required), Committing(c, mapping, history), w.input)
          == (tables.Contents(), if committed then Auditing(c, mapping, true) else Rereading(c));
      if committed {
        return Mapped(c, mapping, true);
      }
      // Rolled back.
      assert Conclude(fold, Resolve(user, required), tables.Contents(), Rereading(c), w)
          == Conclude(fold, Resolve(user, required), old(tables.Contents()), Reading(upn, c), w);
      tables.Suspend(w.atReread);
      existing := ConflictRows(tables.rows, c);
      assert Segment(fold, w.atReread, Resolve(user, required), Rereading(c), w.input)
          == (tables.Contents(), Agreed(fold, existing, c));
      if |existing| == 1 && IsSame(fold, existing[0], c) {
        return Mapped(c, existing[0], false);
      }
      return Raised(Refused(MappingConflict), Some(c));
    }

    /** The part of `provision` from the answer of D365 on. */
    method UseReply(user: User, upn: string, oid: string, fields: Fields, w: Waits, ghost required: bool)
      returns (r: Provision)
      modifies tables
      ensures Conclude(fold, Resolve(user, required), tables.Contents(), AsPhase(r, required), w) ==
              Conclude(fold, Resolve(user, required), old(tables.Contents()), Asking(upn, oid, fields), w)
    {
      var reply := w.input.reply;
      if !reply.Entries? {
        return Raised(Refused(Unavailable), None);
      }
      if reply.entries == [] {
        return NoMatch;
      }
      if |reply.entries| != 1 || !reply.entries[0].Record? {
        return Raised(Refused(MappingConflict), None);
      }
      var claim := VerifyRecord(fold, reply.entries[0].row, fields, oid, upn);
      if claim.None? {
        return Raised(Refused(MappingConflict), None);
      }
      r := InsertOrAgree(user, upn, claim.value, w, required);
    }

    method ProvisionUser(user: User, w: Waits, ghost required: bool) returns (r: Provision)
      modifies tables
      ensures Conclude(fold, Resolve(user, required), tables.Contents(), AsPhase(r, required), w) ==
              Conclude(fold, Resolve(user, required), old(tables.Contents()), BeginProvision(fold, user, required), w)
    {
      var upn := if Falsy(user.username) then "" else Strip(fold(user.username.value));
      if upn == "" {
        return NoMatch;
      }
      var oid := Canonical(user.oid);
      if oid.None? {
        return Raised(Refused(MappingConflict), None);
      }
      var fields := ConfiguredFields(w.input.config);
      if fields.Err? {
        return Raised(fields.error, None);
      }
      if Equals(Equality(fields.value.entraUpn, upn)).Err? {
        return Raised(Crashed, None);
      }
      r := UseReply(user, upn, oid.value, fields.value, w, required);
    }

    /** `resolve_identity`; the audit record it commits is in a table of its own. */
    method ResolveIdentity(user: User, required: bool, w: Waits) returns (outcome: Outcome)
      modifies tables
      ensures
        var (db, p) := Conclude(fold, Resolve(user, required), old(tables.Contents()), Starting, w);
        p.Done? && outcome == p.outcome && tables.Contents() == db
    {
      ghost var job := Resolve(user, required);
      tables.Suspend(w.atLookup);
      var found := VerifiedRows(tables.rows, user.oid);
      if |found| > 1 {
        return Refused(MappingConflict);
      }
      if |found| == 1 {
        return Found(found[0]);
      }
      assert Conclude(fold, job, old(tables.Contents()), Starting, w)
          == Conclude(fold, job, tables.Contents(), BeginProvision(fold, user, required), w);
      var provision := ProvisionUser(user, w, required);
      match provision {
        case Mapped(c, m, inserted) =>
          assert Segment(fold, tables.Contents(), job, Auditing(c, m, inserted), w.input)
              == (tables.Contents(), Done(Provisioned(m), Some(c), inserted));
          return Provisioned(m);
        case NoMatch => return if required then Refused(MappingRequired) else Unmapped;
        case Raised(o, about) => return o;
      }
    }
  }

  /** The commit of the manual tool. */
  method CommitManually(tables: IdentityTables, ghost fold: string -> string, ghost job: Job, ghost c: Claim,
                        m: Mapping, h: History, w: Waits) returns (outcome: Outcome)
    requires job.Create?
    modifies tables
    ensures
      var (db, p) := Conclude(fold, job, old(tables.Contents()), Committing(c, m, h), w);
      p.Done? && outcome == p.outcome && tables.Contents() == db
  {
    tables.Suspend(w.atCommit);
    var committed := tables.Insert(m, h);
    if !committed {
      return Crashed;
    }
    return Created(m);
  }

  /** `create_identity_mapping.run` */
  method CreateIdentityMapping(tables: IdentityTables, fold: string -> string, job: Job, w: Waits) returns (outcome: Outcome)
    requires job.Create?
    modifies tables
    ensures
      var (db, p) := Conclude(fold, job, old(tables.Contents()), Starting, w);
      p.Done? && outcome == p.outcome && tables.Contents() == db
  {
    tables.Suspend(w.atLookup);
    var oid := Canonical(job.oid);
    var approver := Canonical(job.approvedBy);
    if oid.None? || approver.None? {
      return Crashed;
    }
    var personnel := Strip(job.personnel);
    var company := Strip(job.company);
    if |personnel| == 0 || |personnel| > 64 || |company| == 0 || |company| > 32 {
      return Refused(ToolRefused);
    }
    var c := Claim(oid.value, personnel, company);
    if exists r :: r in tables.rows && ConflictsManually(r, c) {
      return Refused(ToolRefused);
    }
    var mapping := Mapping(w.input.id, Some(c.oid), Folded(fold, job.upn), Folded(fold, job.email), personnel, Some(company),
      ManualApproved, true, true);
    var history := History(mapping.id, approver.value, ManualApproved, c.oid, personnel, company);
    assert AfterManualRead(fold, w.atLookup.rows, job, w.input.id) == Committing(c, mapping, history);
    outcome := CommitManually(tables, fold, job, c, mapping, history, w);
  }
}
