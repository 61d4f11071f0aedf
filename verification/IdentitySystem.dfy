/** Any number of interleaved identity tasks over one pair of tables, with an administrator beside them. */
module IdentitySystem {
  import opened Wrappers
  import opened Identity

  datatype Task = Task(job: Job, at: Phase)

  datatype System = System(db: Db, tasks: map<nat, Task>)

  /**
    Abort is an exception or cancellation at a suspension point. SetFlags is an administrator changing
    one row's flags; Replace is anything else done to the mapping table within its constraints.
  */
  datatype Action =
    | Start(t: nat, job: Job)
    | Advance(t: nat, input: Input)
    | Abort(t: nat)
    | SetFlags(row: nat, verified: bool, enabled: bool)
    | Replace(rows: seq<Mapping>)

  predicate Inserted(p: Phase) {
    (p.Auditing? || p.Done?) && p.inserted
  }

  function ClaimOf(p: Phase): Option<Claim> {
    match p
    case Reading(_, c) => Some(c)
    case Committing(c, _, _) => Some(c)
    case Rereading(c) => Some(c)
    case Auditing(c, _, _) => Some(c)
    case Done(_, about, _) => about
    case _ => None
  }

  /** An action that is not enabled changes nothing. */
  function Exec(fold: string -> string, s: System, a: Action): System {
    match a
    case Start(t, job) => if t in s.tasks then s else s.(tasks := s.tasks[t := Task(job, Starting)])
    case Advance(t, input) =>
      if t !in s.tasks then s
      else
        var (db, p) := Segment(fold, s.db, s.tasks[t].job, s.tasks[t].at, input);
        System(db, s.tasks[t := s.tasks[t].(at := p)])
    case Abort(t) =>
      if t !in s.tasks || s.tasks[t].at.Done? then s
      else
        var p := s.tasks[t].at;
        s.(tasks := s.tasks[t := s.tasks[t].(at := Done(Crashed, ClaimOf(p), Inserted(p)))])
    case SetFlags(row, verified, enabled) =>
      if row >= |s.db.rows| then s
      else s.(db := s.db.(rows := s.db.rows[row := s.db.rows[row].(verified := verified, enabled := enabled)]))
    case Replace(rows) => if Consistent(rows) then s.(db := s.db.(rows := rows)) else s
  }

  lemma AdvanceTask(fold: string -> string, s: System, t: nat, i: Input)
    requires t in s.tasks
    ensures t in Exec(fold, s, Advance(t, i)).tasks
    ensures Exec(fold, s, Advance(t, i)).tasks[t] ==
      Task(s.tasks[t].job, Segment(fold, s.db, s.tasks[t].job, s.tasks[t].at, i).1)
  {
  }

  function Run(fold: string -> string, s: System, actions: seq<Action>): System {
    if actions == [] then s else Exec(fold, Run(fold, s, actions[..|actions| - 1]), actions[|actions| - 1])
  }

  /** The state after the first k actions. */
  function After(fold: string -> string, s: System, actions: seq<Action>, k: nat): System
    requires k <= |actions|
  {
    Run(fold, s, actions[..k])
  }

  lemma {:induction false} RunConcat(fold: string -> string, s: System, a: seq<Action>, b: seq<Action>)
    ensures Run(fold, s, a + b) == Run(fold, Run(fold, s, a), b)
  {
    if b == [] {
      assert a + b == a;
    } else {
      var n := |b| - 1;
      RunConcat(fold, s, a, b[..n]);
      assert (a + b)[..|a + b| - 1] == a + b[..n];
    }
  }

  lemma AfterFront(fold: string -> string, s: System, actions: seq<Action>, k: nat)
    requires actions != [] && k < |actions|
    ensures After(fold, s, actions[..|actions| - 1], k) == After(fold, s, actions, k)
  {
    assert actions[..|actions| - 1][..k] == actions[..k];
  }

  lemma AfterNext(fold: string -> string, s: System, actions: seq<Action>, k: nat)
    requires k < |actions|
    ensures After(fold, s, actions, k + 1) == Exec(fold, After(fold, s, actions, k), actions[k])
  {
    assert actions[..k + 1][..k] == actions[..k];
  }

  lemma AfterAll(fold: string -> string, s: System, actions: seq<Action>)
    ensures After(fold, s, actions, |actions|) == Run(fold, s, actions)
    ensures actions != [] ==>
      After(fold, s, actions, |actions| - 1) == Run(fold, s, actions[..|actions| - 1])
  {
    assert actions[..|actions|] == actions;
  }

  // One task in a run.

  lemma OthersKeepTask(fold: string -> string, s: System, a: Action, t: nat)
    requires t in s.tasks && a != Abort(t) && !(a.Advance? && a.t == t)
    ensures t in Exec(fold, s, a).tasks && Exec(fold, s, a).tasks[t] == s.tasks[t]
  {
  }

  lemma NewTaskStarts(fold: string -> string, s: System, a: Action, t: nat)
    requires t !in s.tasks
    ensures t in Exec(fold, s, a).tasks ==> Exec(fold, s, a).tasks[t].at == Starting
  {
  }

  /** The action runs a segment of task t. */
  predicate Steps(s: System, a: Action, t: nat) {
    a.Advance? && a.t == t && t in s.tasks && !s.tasks[t].at.Done?
  }

  /** A segment takes its task further, and no action takes it back. */
  lemma StepRank(fold: string -> string, s: System, a: Action, t: nat)
    requires t in s.tasks
    ensures t in Exec(fold, s, a).tasks && Exec(fold, s, a).tasks[t].job == s.tasks[t].job
    ensures Rank(Exec(fold, s, a).tasks[t].at) <= Rank(s.tasks[t].at)
    ensures Steps(s, a, t) ==> Rank(Exec(fold, s, a).tasks[t].at) < Rank(s.tasks[t].at)
  {
    if a.Advance? && a.t == t {
      AdvanceTask(fold, s, t, a.input);
    } else if a != Abort(t) {
      OthersKeepTask(fold, s, a, t);
    }
  }

  lemma {:induction false} RankFalls(fold: string -> string, s: System, actions: seq<Action>, t: nat, k: nat, n: nat)
    requires k < n <= |actions| && t in After(fold, s, actions, k).tasks
    ensures
      var before, later := After(fold, s, actions, k), After(fold, s, actions, n);
      && t in later.tasks && later.tasks[t].job == before.tasks[t].job
      && Rank(later.tasks[t].at) <= Rank(before.tasks[t].at)
      && (Steps(before, actions[k], t) ==> Rank(later.tasks[t].at) < Rank(before.tasks[t].at))
  {
    AfterNext(fold, s, actions, n - 1);
    if k < n - 1 {
      RankFalls(fold, s, actions, t, k, n - 1);
    }
    StepRank(fold, After(fold, s, actions, n - 1), actions[n - 1], t);
  }

  lemma FinishedStays(fold: string -> string, s: System, a: Action, t: nat)
    requires t in s.tasks && !Steps(s, a, t) && a != Abort(t)
    ensures t in Exec(fold, s, a).tasks && Exec(fold, s, a).tasks[t] == s.tasks[t]
  {
    if a.Advance? && a.t == t {
      AdvanceTask(fold, s, t, a.input);
    } else {
      OthersKeepTask(fold, s, a, t);
    }
  }
}
