/** A disabled or unverified mapping is never superseded by the two writers. */
module IdentityBlocked {
  import opened Wrappers
  import opened Text
  import opened Uuid
  import opened Identity
  import opened IdentitySystem
  import opened IdentitySafety

  /** The row of this object ID is disabled or unverified. */
  predicate Blocked(rows: seq<Mapping>, oid: string) {
    exists r :: r in rows && r.oid == Some(oid) && !(r.enabled && r.verified)
  }

  /** No row spells the same object ID in another way; the writers never produce such a row. */
  predicate OneSpelling(rows: seq<Mapping>, oid: string) {
    forall r :: r in rows && r.oid.Some? && Canonical(r.oid.value) == Some(oid) ==> r.oid.value == oid
  }

  predicate Protected(rows: seq<Mapping>, oid: string) {
    Blocked(rows, oid) && OneSpelling(rows, oid)
  }

  predicate Answered(p: Phase) {
    p.Auditing? || (p.Done? && (p.outcome.Found? || p.outcome.Provisioned? || p.outcome.Created?))
  }

  lemma CollisionMeansSame(rows: seq<Mapping>, i: nat, j: nat)
    requires Consistent(rows) && i < |rows| && j < |rows| && Collide(rows[i], rows[j])
    ensures i == j
  {
    assert Collide(rows[j], rows[i]);
  }

  lemma OneRowPerOid(rows: seq<Mapping>, a: Mapping, b: Mapping)
    requires Consistent(rows) && a in rows && b in rows && a.oid.Some? && a.oid == b.oid
    ensures a == b
  {
    var i :| 0 <= i < |rows| && rows[i] == a;
    var j :| 0 <= j < |rows| && rows[j] == b;
    CollisionMeansSame(rows, i, j);
  }

  /** The one way around a blocked row: an enabled, verified row whose text is the token's own, different spelling. */
  lemma LookupPassesBlockedRowIff(fold: string -> string, rows: seq<Mapping>, oid: string, user: User, required: bool)
    requires Consistent(rows) && Blocked(rows, oid) && Canonical(user.oid) == Some(oid)
    ensures
      var p := AfterLookup(fold, rows, user, required);
      (p.Done? && p.outcome.Found?) <==>
        user.oid != oid && exists r :: r in rows && r.oid == Some(user.oid) && r.enabled && r.verified
  {
    AtMostOneVerified(rows, user.oid);
    VerifiedRowsExactly(rows, user.oid);
    var found := VerifiedRows(rows, user.oid);
    var b :| b in rows && b.oid == Some(oid) && !(b.enabled && b.verified);
    if |found| == 1 {
      assert found[0] in found;
      if user.oid == oid {
        OneRowPerOid(rows, b, found[0]);
      }
    }
  }

  lemma NothingAgreed(fold: string -> string, rows: seq<Mapping>, c: Claim)
    requires Consistent(rows) && Blocked(rows, c.oid)
    ensures ConflictRows(rows, c) != []
    ensures Agreed(fold, ConflictRows(rows, c), c) == Done(Refused(MappingConflict), Some(c), false)
  {
    var b :| b in rows && b.oid == Some(c.oid) && !(b.enabled && b.verified);
    ConflictRowsExactly(rows, c);
    var existing := ConflictRows(rows, c);
    assert b in existing;
    if |existing| == 1 {
      assert existing[0] == b;
    }
  }

  /** The table is left alone, or gets one row that spells another object ID. */
  predicate AddsNothing(rows: seq<Mapping>, rows': seq<Mapping>, oid: string) {
    || rows' == rows
    || (&& |rows'| == |rows| + 1 && rows <= rows'
        && var added := rows'[|rows|].oid;
        added.Some? && Canonical(added.value).Some? && Canonical(added.value) != Some(oid))
  }

  lemma SegmentAddsNothing(fold: string -> string, db: Db, job: Job, p: Phase, i: Input, oid: string)
    requires TaskOk(fold, Task(job, p)) && Blocked(db.rows, oid)
    ensures AddsNothing(db.rows, Segment(fold, db, job, p, i).0.rows, oid)
  {
    SegmentEffect(fold, db, job, p, i);
    if p.Committing? && Admits(db.rows, p.mapping) {
      var b :| b in db.rows && b.oid == Some(oid) && !(b.enabled && b.verified);
      assert !Collide(b, p.mapping);
      CanonicalText(JobOid(job), JobOid(job));
    }
  }

  lemma ReadAnswersNothing(fold: string -> string, db: Db, job: Job, p: Phase, i: Input)
    requires TaskOk(fold, Task(job, p)) && Consistent(db.rows) && (p.Reading? || p.Rereading?)
    requires Blocked(db.rows, p.claim.oid)
    ensures !Answered(Segment(fold, db, job, p, i).1)
  {
    NothingAgreed(fold, db.rows, p.claim);
  }

  lemma CommitAnswersNothing(fold: string -> string, db: Db, job: Job, p: Phase, i: Input)
    requires TaskOk(fold, Task(job, p)) && p.Committing? && Blocked(db.rows, p.claim.oid)
    ensures !Answered(Segment(fold, db, job, p, i).1)
  {
    var b :| b in db.rows && b.oid == Some(p.claim.oid) && !(b.enabled && b.verified);
    assert Collide(b, p.mapping);
  }

  lemma ManualReadAnswersNothing(fold: string -> string, rows: seq<Mapping>, job: Job, id: nat)
    requires job.Create?
    ensures !Answered(AfterManualRead(fold, rows, job, id))
  {
  }

  /** The one way to an answer for a blocked ID. */
  predicate Passes(rows: seq<Mapping>, job: Job, p: Phase, oid: string) {
    && p.Starting? && job.Resolve? && job.user.oid != oid
    && exists r :: r in rows && r.oid == Some(job.user.oid) && r.enabled && r.verified
  }

  lemma StartPassesIff(fold: string -> string, db: Db, job: Job, i: Input, oid: string)
    requires Consistent(db.rows) && Blocked(db.rows, oid) && Canonical(JobOid(job)) == Some(oid)
    ensures Answered(Segment(fold, db, job, Starting, i).1) <==> Passes(db.rows, job, Starting, oid)
    ensures !Segment(fold, db, job, Starting, i).1.Auditing?
  {
    if job.Resolve? {
      LookupPassesBlockedRowIff(fold, db.rows, oid, job.user, job.required);
    } else {
      ManualReadAnswersNothing(fold, db.rows, job, i.id);
    }
  }

  lemma AskingAnswersNothing(fold: string -> string, db: Db, job: Job, p: Phase, i: Input)
    requires p.Configuring? || p.Asking?
    ensures !Answered(Segment(fold, db, job, p, i).1)
  {
  }

  /** While the row is blocked, a segment of any task for its ID comes to an answer in exactly this one way. */
  lemma SegmentPassesIff(fold: string -> string, db: Db, job: Job, p: Phase, i: Input, oid: string)
    requires TaskOk(fold, Task(job, p)) && Consistent(db.rows) && Blocked(db.rows, oid)
    requires Canonical(JobOid(job)) == Some(oid) && !Answered(p)
    ensures Answered(Segment(fold, db, job, p, i).1) <==> Passes(db.rows, job, p, oid)
    ensures Answered(Segment(fold, db, job, p, i).1) ==> Segment(fold, db, job, p, i).1.Done?
  {
    match p {
      case Starting => StartPassesIff(fold, db, job, i, oid);
      case Configuring(_, _) => AskingAnswersNothing(fold, db, job, p, i);
      case Asking(_, _, _) => AskingAnswersNothing(fold, db, job, p, i);
      case Reading(_, _) => ReadAnswersNothing(fold, db, job, p, i);
      case Rereading(_) => ReadAnswersNothing(fold, db, job, p, i);
      case Committing(_, _, _) => CommitAnswersNothing(fold, db, job, p, i);
      case Done(_, _, _) =>
    }
  }

  lemma StepKeepsConsistent(fold: string -> string, s: System, a: Action)
    requires Consistent(s.db.rows)
    ensures Consistent(Exec(fold, s, a).db.rows)
  {
    if a.Advance? && a.t in s.tasks {
      SegmentEffect(fold, s.db, s.tasks[a.t].job, s.tasks[a.t].at, a.input);
    } else if a.SetFlags? && a.row < |s.db.rows| {
      var rows := Exec(fold, s, a).db.rows;
      forall i, j | 0 <= i < j < |rows|
        ensures !Collide(rows[i], rows[j])
      {
        assert !Collide(s.db.rows[i], s.db.rows[j]);
      }
    }
  }

  lemma {:induction false} RunKeepsConsistent(fold: string -> string, s: System, actions: seq<Action>)
    requires Consistent(s.db.rows)
    ensures Consistent(Run(fold, s, actions).db.rows)
  {
    if actions != [] {
      RunKeepsConsistent(fold, s, actions[..|actions| - 1]);
      StepKeepsConsistent(fold, Run(fold, s, actions[..|actions| - 1]), actions[|actions| - 1]);
    }
  }

  /** At any moment at which the row is blocked, no segment of a writer inserts a row for that object ID, in any spelling. */
  lemma BlockedGetsNoRow(fold: string -> string, s: System, actions: seq<Action>, oid: string, k: nat)
    requires TasksOk(fold, s) && k < |actions| && actions[k].Advance?
    requires Blocked(After(fold, s, actions, k).db.rows, oid)
    ensures AddsNothing(After(fold, s, actions, k).db.rows, After(fold, s, actions, k + 1).db.rows, oid)
  {
    var now, a := After(fold, s, actions, k), actions[k];
    RunKeepsTasks(fold, s, actions[..k]);
    AfterNext(fold, s, actions, k);
    if a.t in now.tasks {
      var task := now.tasks[a.t];
      assert task == Task(task.job, task.at) && TaskOk(fold, task);
      SegmentAddsNothing(fold, now.db, task.job, task.at, a.input, oid);
    }
  }

  // Exactly when a blocked row is passed.

  /** The action runs a lookup of task t that passes the block. */
  predicate PassesAt(s: System, a: Action, t: nat, oid: string) {
    a.Advance? && a.t == t && t in s.tasks && Passes(s.db.rows, s.tasks[t].job, s.tasks[t].at, oid)
  }

  /** One more action, for a task that has no answer yet. */
  lemma StepPassesIff(fold: string -> string, s: System, a: Action, oid: string, t: nat)
    requires TasksOk(fold, s) && Consistent(s.db.rows) && Blocked(s.db.rows, oid)
    requires t in s.tasks && Canonical(JobOid(s.tasks[t].job)) == Some(oid) && !Answered(s.tasks[t].at)
    ensures t in Exec(fold, s, a).tasks
    ensures Answered(Exec(fold, s, a).tasks[t].at) <==> PassesAt(s, a, t, oid)
    ensures Answered(Exec(fold, s, a).tasks[t].at) ==> Exec(fold, s, a).tasks[t].at.Done?
  {
    var task := s.tasks[t];
    assert task == Task(task.job, task.at) && TaskOk(fold, task);
    if a.Advance? && a.t == t {
      AdvanceTask(fold, s, t, a.input);
      SegmentPassesIff(fold, s.db, task.job, task.at, a.input, oid);
    } else if a != Abort(t) {
      OthersKeepTask(fold, s, a, t);
    }
  }

  lemma FinishedAnswerStays(fold: string -> string, s: System, a: Action, t: nat)
    requires t in s.tasks && s.tasks[t].at.Done?
    ensures t in Exec(fold, s, a).tasks && Exec(fold, s, a).tasks[t] == s.tasks[t]
  {
    if a != Abort(t) {
      FinishedStays(fold, s, a, t);
    }
  }

  predicate PassesBefore(fold: string -> string, s: System, actions: seq<Action>, n: nat, t: nat, oid: string)
    requires n <= |actions|
  {
    exists k :: 0 <= k < n && PassesAt(After(fold, s, actions, k), actions[k], t, oid)
  }

  lemma PassesNext(fold: string -> string, s: System, actions: seq<Action>, n: nat, t: nat, oid: string)
    requires 0 < n <= |actions|
    ensures PassesBefore(fold, s, actions, n, t, oid) <==>
      || PassesBefore(fold, s, actions, n - 1, t, oid)
      || PassesAt(After(fold, s, actions, n - 1), actions[n - 1], t, oid)
  {
  }

  lemma NotStartedNotPassed(fold: string -> string, s: System, actions: seq<Action>, n: nat, t: nat, oid: string)
    requires n <= |actions| && t !in After(fold, s, actions, n).tasks
    ensures !PassesBefore(fold, s, actions, n, t, oid)
  {
    if PassesBefore(fold, s, actions, n, t, oid) {
      var k :| 0 <= k < n && PassesAt(After(fold, s, actions, k), actions[k], t, oid);
      RankFalls(fold, s, actions, t, k, n);
    }
  }

  /** Task t, if it is for this ID, has an answer exactly if its lookup has passed the block. */
  predicate Judged(fold: string -> string, s: System, actions: seq<Action>, oid: string, n: nat, t: nat)
    requires n <= |actions|
  {
    var now := After(fold, s, actions, n);
    t in now.tasks && Canonical(JobOid(now.tasks[t].job)) == Some(oid) ==>
      && (Answered(now.tasks[t].at) <==> PassesBefore(fold, s, actions, n, t, oid))
      && (Answered(now.tasks[t].at) ==> now.tasks[t].at.Done?)
  }

  lemma JudgedAtStart(fold: string -> string, s: System, actions: seq<Action>, oid: string, n: nat, t: nat)
    requires 0 < n <= |actions| && t !in After(fold, s, actions, n - 1).tasks
    ensures Judged(fold, s, actions, oid, n, t)
  {
    AfterNext(fold, s, actions, n - 1);
    NewTaskStarts(fold, After(fold, s, actions, n - 1), actions[n - 1], t);
    PassesNext(fold, s, actions, n, t, oid);
    NotStartedNotPassed(fold, s, actions, n - 1, t, oid);
    assert !PassesBefore(fold, s, actions, n, t, oid);
  }

  lemma JudgedNext(fold: string -> string, s: System, actions: seq<Action>, oid: string, n: nat, t: nat)
    requires 0 < n <= |actions| && Judged(fold, s, actions, oid, n - 1, t)
    requires var before := After(fold, s, actions, n - 1);
      TasksOk(fold, before) && Consistent(before.db.rows) && Blocked(before.db.rows, oid) && t in before.tasks
    ensures Judged(fold, s, actions, oid, n, t)
  {
    var before, a := After(fold, s, actions, n - 1), actions[n - 1];
    AfterNext(fold, s, actions, n - 1);
    PassesNext(fold, s, actions, n, t, oid);
    StepRank(fold, before, a, t);
    if Canonical(JobOid(before.tasks[t].job)) == Some(oid) {
      if Answered(before.tasks[t].at) {
        FinishedAnswerStays(fold, before, a, t);
      } else {
        StepPassesIff(fold, before, a, oid, t);
      }
    }
  }

  predicate BlockedUntil(fold: string -> string, s: System, actions: seq<Action>, oid: string, n: nat)
    requires n <= |actions|
  {
    forall k :: 0 <= k < n ==> Blocked(After(fold, s, actions, k).db.rows, oid)
  }

  /**
    The whole protocol, from any state of any run and whatever is done to the table from outside: while the
    row of an ID is blocked, a task for that ID that has no answer yet comes to a mapping if and only if its own
    lookup finds another spelling, equal to its token, on an enabled and verified row.
  */
  lemma {:induction false} BlockIsPassedIff(fold: string -> string, s: System, actions: seq<Action>, oid: string, n: nat, t: nat)
    requires TasksOk(fold, s) && Consistent(s.db.rows) && (t in s.tasks ==> !Answered(s.tasks[t].at))
    requires n <= |actions| && BlockedUntil(fold, s, actions, oid, n)
    ensures Judged(fold, s, actions, oid, n, t)
  {
    if n > 0 {
      BlockIsPassedIff(fold, s, actions, oid, n - 1, t);
      if t in After(fold, s, actions, n - 1).tasks {
        RunKeepsTasks(fold, s, actions[..n - 1]);
        RunKeepsConsistent(fold, s, actions[..n - 1]);
        JudgedNext(fold, s, actions, oid, n, t);
      } else {
        JudgedAtStart(fold, s, actions, oid, n, t);
      }
    }
  }

  /** Only tasks that already had an answer in `s` have one in `s'`, among those for this object ID. */
  predicate NoNewAnswers(s: System, s': System, oid: string) {
    forall t :: t in s'.tasks && Canonical(JobOid(s'.tasks[t].job)) == Some(oid) && Answered(s'.tasks[t].at) ==>
      t in s.tasks && s.tasks[t].job == s'.tasks[t].job && Answered(s.tasks[t].at)
  }

  predicate BlockedThroughout(fold: string -> string, s: System, actions: seq<Action>, oid: string) {
    forall k :: 0 <= k <= |actions| ==> Protected(After(fold, s, actions, k).db.rows, oid)
  }

  /**
    From any state of any run, whatever is done to the table from outside: while the row stays blocked, no
    task for its object ID, however its token spells it, obtains a mapping.
  */
  lemma BlockedGetsNoAnswer(fold: string -> string, s: System, actions: seq<Action>, oid: string)
    requires TasksOk(fold, s) && Consistent(s.db.rows) && BlockedThroughout(fold, s, actions, oid)
    ensures Consistent(Run(fold, s, actions).db.rows)
    ensures NoNewAnswers(s, Run(fold, s, actions), oid)
  {
    RunKeepsConsistent(fold, s, actions);
    AfterAll(fold, s, actions);
    forall t | t in Run(fold, s, actions).tasks
      ensures Canonical(JobOid(Run(fold, s, actions).tasks[t].job)) == Some(oid) && Answered(Run(fold, s, actions).tasks[t].at) ==>
        t in s.tasks && s.tasks[t].job == Run(fold, s, actions).tasks[t].job && Answered(s.tasks[t].at)
    {
      AnsweredBefore(fold, s, actions, oid, t);
    }
  }

  lemma AnsweredBefore(fold: string -> string, s: System, actions: seq<Action>, oid: string, t: nat)
    requires TasksOk(fold, s) && Consistent(s.db.rows) && BlockedThroughout(fold, s, actions, oid)
    requires t in After(fold, s, actions, |actions|).tasks
    ensures
      var task := After(fold, s, actions, |actions|).tasks[t];
      Canonical(JobOid(task.job)) == Some(oid) && Answered(task.at) ==>
        t in s.tasks && s.tasks[t].job == task.job && Answered(s.tasks[t].at)
  {
    var n := |actions|;
    assert After(fold, s, actions, 0) == s;
    if t in s.tasks {
      if n > 0 { RankFalls(fold, s, actions, t, 0, n); }
    }
    if (t in s.tasks ==> !Answered(s.tasks[t].at)) && Canonical(JobOid(After(fold, s, actions, n).tasks[t].job)) == Some(oid) {
      BlockIsPassedIff(fold, s, actions, oid, n, t);
      NothingPasses(fold, s, actions, oid, n, t);
    }
  }

  lemma NothingPasses(fold: string -> string, s: System, actions: seq<Action>, oid: string, n: nat, t: nat)
    requires n <= |actions| && BlockedThroughout(fold, s, actions, oid)
    requires t in After(fold, s, actions, n).tasks
    requires Canonical(JobOid(After(fold, s, actions, n).tasks[t].job)) == Some(oid)
    ensures !PassesBefore(fold, s, actions, n, t, oid)
  {
    forall k | 0 <= k < n
      ensures !PassesAt(After(fold, s, actions, k), actions[k], t, oid)
    {
      var now := After(fold, s, actions, k);
      assert Protected(now.db.rows, oid);
      if t in now.tasks {
        RankFalls(fold, s, actions, t, k, n);
      }
    }
  }

  /** In any run from an empty table: a task that starts after its row was blocked, and ends while it is, has no answer. */
  lemma LateTasksAreRefused(fold: string -> string, before: seq<Action>, actions: seq<Action>, oid: string, t: nat)
    requires BlockedThroughout(fold, Run(fold, EMPTY, before), actions, oid)
    requires t !in Run(fold, EMPTY, before).tasks && t in Run(fold, Run(fold, EMPTY, before), actions).tasks
    requires Canonical(JobOid(Run(fold, Run(fold, EMPTY, before), actions).tasks[t].job)) == Some(oid)
    ensures !Answered(Run(fold, Run(fold, EMPTY, before), actions).tasks[t].at)
  {
    RunKeepsTasks(fold, EMPTY, before);
    RunKeepsConsistent(fold, EMPTY, before);
    BlockedGetsNoAnswer(fold, Run(fold, EMPTY, before), actions, oid);
  }

  /** In runs of the writers from an empty table there is only one spelling, so the block needs no other condition. */
  lemma WritersSpellOnce(fold: string -> string, actions: seq<Action>, oid: string)
    requires WritersOnly(actions)
    ensures OneSpelling(Run(fold, EMPTY, actions).db.rows, oid)
  {
    RunKeepsSafe(fold, EMPTY, actions);
  }

  /**
    So for the writers alone the block is complete: from an empty table, a task that starts while the row is
    disabled or unverified, and ends while it still is, has no mapping to answer with, in any spelling.
  */
  lemma WritersRespectBlock(fold: string -> string, before: seq<Action>, actions: seq<Action>, oid: string, t: nat)
    requires WritersOnly(before) && WritersOnly(actions)
    requires forall k :: 0 <= k <= |actions| ==> Blocked(After(fold, Run(fold, EMPTY, before), actions, k).db.rows, oid)
    requires t !in Run(fold, EMPTY, before).tasks && t in Run(fold, Run(fold, EMPTY, before), actions).tasks
    requires Canonical(JobOid(Run(fold, Run(fold, EMPTY, before), actions).tasks[t].job)) == Some(oid)
    ensures !Answered(Run(fold, Run(fold, EMPTY, before), actions).tasks[t].at)
  {
    var s := Run(fold, EMPTY, before);
    forall k | 0 <= k <= |actions|
      ensures Protected(After(fold, s, actions, k).db.rows, oid)
    {
      RunConcat(fold, EMPTY, before, actions[..k]);
      WritersSpellOnce(fold, before + actions[..k], oid);
    }
    LateTasksAreRefused(fold, before, actions, oid, t);
  }

  lemma BracesStripped(text: string)
    requires text != "" && forall c :: c in text ==> c != 'u' && c != '{' && c != '}'
    ensures Bare("{" + text + "}") == Bare(text)
  {
    var braced := "{" + text + "}";
    assert 'u' !in braced && 'u' !in text;
    DropWordAbsent(braced, "urn:");
    DropWordAbsent(braced, "uuid:");
    DropWordAbsent(text, "urn:");
    DropWordAbsent(text, "uuid:");
    StripBracesOnce(text);
  }

  /** Braces around a canonical ID spell the same ID. */
  lemma BracedSpelling(n: nat)
    requires n < Pow16(32)
    ensures Canonical("{" + Print(n) + "}") == Some(Print(n))
  {
    var h := Hex(n, 32);
    var oid := Print(n);
    forall c | c in oid
      ensures c != 'u' && c != '{' && c != '}'
    {
      assert c in h || c == '-';
      assert c in h ==> IsHexDigit(c);
    }
    BracesStripped(oid);
    RoundTrip(n);
  }

  /** Without the one-spelling condition the block can be passed: here is a table and a token that do it. */
  lemma OtherSpellingPasses(fold: string -> string, n: nat, company: string)
    requires n < Pow16(32)
    ensures
      var oid := Print(n);
      var blocked := Mapping(0, Some(oid), None, None, "1", Some(company), ManualApproved, true, false);
      var other := Mapping(1, Some("{" + oid + "}"), None, None, "2", Some(company), OtherSource("import"), true, true);
      var rows := [blocked, other];
      && Consistent(rows) && Blocked(rows, oid)
      && AfterLookup(fold, rows, User("{" + oid + "}", None, None), true) == Done(Found(other), None, false)
  {
    var oid := Print(n);
    BracedSpelling(n);
    var blocked := Mapping(0, Some(oid), None, None, "1", Some(company), ManualApproved, true, false);
    var other := Mapping(1, Some("{" + oid + "}"), None, None, "2", Some(company), OtherSource("import"), true, true);
    var rows := [blocked, other];
    assert blocked in rows;
    assert rows[..1] == [blocked] && [blocked][..0] == [];
    assert VerifiedRows([blocked], "{" + oid + "}") == [];
    assert VerifiedRows(rows, "{" + oid + "}") == [other];
  }
}
