/**
  How `resolve_identity` and the manual tool end, and what they leave in the tables, said from the rows and
  inputs they meet.
*/
module IdentityOutcomes {
  import opened Wrappers
  import opened Text
  import opened PyJson
  import opened ODataQuery
  import opened Uuid
  import opened Identity
  import opened IdentitySystem
  import opened IdentityService

  /** Row i answers the lookup of this token text. */
  predicate AnswersLookup(rows: seq<Mapping>, token: string, i: int) {
    0 <= i < |rows| && rows[i].oid == Some(token) && rows[i].enabled && rows[i].verified
  }

  predicate NothingLooksUp(rows: seq<Mapping>, token: string) {
    forall i :: 0 <= i < |rows| ==> !AnswersLookup(rows, token, i)
  }

  predicate OnlyLooksUp(rows: seq<Mapping>, token: string, i: int) {
    0 <= i < |rows| && forall j :: 0 <= j < |rows| ==> (AnswersLookup(rows, token, j) <==> j == i)
  }

  /** The user has a name to ask D365 for. */
  predicate HasUpn(fold: string -> string, user: User, upn: string) {
    user.username.Some? && user.username.value != "" && upn == Strip(fold(user.username.value)) && upn != ""
  }

  predicate IsColumn(j: Option<Json>) {
    j.Some? && j.value.Str? && IsIdentifier(j.value.s)
  }

  predicate IsBadColumn(j: Option<Json>) {
    j.Some? && j.value.Str? && !IsIdentifier(j.value.s)
  }

  /** The configuration names an entity and all four columns. */
  predicate Complete(config: Option<Config>) {
    && config.Some? && IsIdentifier(config.value.entity)
    && IsColumn(config.value.entraOid) && IsColumn(config.value.entraUpn)
    && IsColumn(config.value.personnelNumber) && IsColumn(config.value.company)
  }

  /** An enabled configuration in which a name is not an identifier. */
  predicate Malformed(config: Option<Config>) {
    && config.Some?
    && (|| !IsIdentifier(config.value.entity)
        || IsBadColumn(config.value.entraOid) || IsBadColumn(config.value.entraUpn)
        || IsBadColumn(config.value.personnelNumber) || IsBadColumn(config.value.company))
  }

  /** The row carries the user's object ID and UPN, and c is what its employee columns say. */
  predicate RowVouches(fold: string -> string, k: Config, row: Row, oid: string, upn: string, c: Claim)
    requires Complete(Some(k))
  {
    && Parse(oid).Some? && c.oid == Print(Parse(oid).value)
    && Parse(PyStr(Get(row, k.entraOid.value.s))) == Parse(oid)
    && Strip(fold(GetText(row, k.entraUpn.value.s))) == upn
    && c.personnel == Strip(GetText(row, k.personnelNumber.value.s)) && 1 <= |c.personnel| <= 64
    && c.company == Strip(GetText(row, k.company.value.s)) && 1 <= |c.company| <= 32
  }

  /** D365 vouches for c: one record, under a complete configuration, for a user with a usable name. */
  predicate Vouched(fold: string -> string, user: User, i: Input, upn: string, c: Claim) {
    && HasUpn(fold, user, upn) && '\0' !in upn && '\r' !in upn && '\n' !in upn
    && Complete(i.config)
    && i.reply.Entries? && |i.reply.entries| == 1 && i.reply.entries[0].Record?
    && RowVouches(fold, i.config.value, i.reply.entries[0].row, user.oid, upn, c)
  }

  /** The row has the object ID, or the employee. */
  predicate Concerns(r: Mapping, c: Claim) {
    r.oid == Some(c.oid) || (r.personnel == c.personnel && r.company == Some(c.company))
  }

  predicate NothingConcerns(rows: seq<Mapping>, c: Claim) {
    forall r :: r in rows ==> !Concerns(r, c)
  }

  /** Row i is the only one that concerns c, and it is c's own enabled, verified mapping, up to the case of the company. */
  predicate Settles(fold: string -> string, rows: seq<Mapping>, c: Claim, i: int) {
    && 0 <= i < |rows| && (forall j :: 0 <= j < |rows| ==> (Concerns(rows[j], c) <==> j == i))
    && rows[i].oid == Some(c.oid) && rows[i].personnel == c.personnel
    && fold(if rows[i].company.Some? then rows[i].company.value else "") == fold(c.company)
    && rows[i].enabled && rows[i].verified
  }

  /** The database would reject the new row. */
  predicate Rejected(rows: seq<Mapping>, id: nat, oid: string) {
    exists r :: r in rows && (r.id == id || r.oid == Some(oid))
  }

  predicate FoldedOrNone(fold: string -> string, given: Option<string>, stored: Option<string>) {
    stored == if given.Some? && given.value != "" then Some(fold(given.value)) else None
  }

  /** The mapping that is inserted for a user whom D365 vouches for. */
  predicate IsNewMapping(fold: string -> string, user: User, upn: string, c: Claim, id: nat, m: Mapping) {
    && m.id == id && m.oid == Some(c.oid) && m.upn == Some(upn) && FoldedOrNone(fold, user.email, m.email)
    && m.personnel == c.personnel && m.company == Some(c.company)
    && m.source == AutoVerified && m.verified && m.enabled
  }

  predicate IsHistoryOf(h: History, m: Mapping, writer: string, c: Claim) {
    && h.mappingId == m.id && h.changedBy == writer && h.change == m.source
    && h.oid == c.oid && h.personnel == c.personnel && h.company == c.company
  }

  /** Both tables have one row more. */
  predicate Grown(before: Db, after: Db, m: Mapping, h: History) {
    after.rows == before.rows + [m] && after.history == before.history + [h]
  }

  /** The answer with an existing row, or the refusal. */
  predicate EndsWithExisting(fold: string -> string, found: Db, c: Claim, after: Db, p: Phase) {
    && after == found && p.Done? && !p.inserted && p.about == Some(c)
    && (forall i :: 0 <= i < |found.rows| && Settles(fold, found.rows, c, i) ==> p.outcome == Provisioned(found.rows[i]))
    && ((forall i :: 0 <= i < |found.rows| ==> !Settles(fold, found.rows, c, i)) ==> p.outcome == Refused(MappingConflict))
  }

  /** How a call ends for which D365 vouches. */
  predicate EndsVouched(fold: string -> string, user: User, upn: string, c: Claim, w: Waits, after: Db, p: Phase) {
    if !NothingConcerns(w.atRead.rows, c) then EndsWithExisting(fold, w.atRead, c, after, p)
    else if Rejected(w.atCommit.rows, w.input.id, c.oid) then EndsWithExisting(fold, w.atReread, c, after, p)
    else
      && p.Done? && p.inserted && p.about == Some(c) && p.outcome.Provisioned?
      && IsNewMapping(fold, user, upn, c, w.input.id, p.outcome.mapping)
      && |after.history| > 0 && var h := after.history[|after.history| - 1];
      && IsHistoryOf(h, p.outcome.mapping, c.oid, c)
      && Grown(w.atCommit, after, p.outcome.mapping, h)
  }

  /** How a call ends that D365 does not vouch for, or does not need to. */
  predicate EndsUnvouched(fold: string -> string, user: User, required: bool, w: Waits, after: Db, p: Phase) {
    && after == w.atLookup && p.Done? && !p.inserted && p.about == None
    && var rows, i, oid := w.atLookup.rows, w.input, user.oid;
    && (forall k :: 0 <= k < |rows| && OnlyLooksUp(rows, oid, k) ==> p.outcome == Found(rows[k]))
    && ((exists k :: 0 <= k < |rows| && OnlyLooksUp(rows, oid, k)) ||
        p.outcome ==
        if !NothingLooksUp(rows, oid) then Refused(MappingConflict)
        else if !HasUpn(fold, user, UpnOf(fold, user)) then NoOne(required)
        else if Parse(oid).None? then Refused(MappingConflict)
        else if Malformed(i.config) then Crashed
        else if !Complete(i.config) then Refused(NotConfigured)
        else if '\0' in UpnOf(fold, user) || '\r' in UpnOf(fold, user) || '\n' in UpnOf(fold, user) then Crashed
        else if !i.reply.Entries? then Refused(Unavailable)
        else if i.reply.entries == [] then NoOne(required)
        else Refused(MappingConflict))
  }

  function UpnOf(fold: string -> string, user: User): string {
    if user.username.Some? then Strip(fold(user.username.value)) else ""
  }

  function NoOne(required: bool): Outcome {
    if required then Refused(MappingRequired) else Unmapped
  }

  // Conclude, phase by phase.

  lemma RereadEnds(fold: string -> string, job: Job, db: Db, c: Claim, w: Waits)
    requires job.Resolve?
    ensures var (after, p) := Conclude(fold, job, db, Rereading(c), w); EndsWithExisting(fold, w.atReread, c, after, p)
  {
    ExistingEnds(fold, w.atReread, c);
    AgreedConcludes(fold, job, w.atReread, ConflictRows(w.atReread.rows, c), c, w);
  }

  lemma AgreedConcludes(fold: string -> string, job: Job, db: Db, existing: seq<Mapping>, c: Claim, w: Waits)
    requires job.Resolve?
    ensures Conclude(fold, job, db, Agreed(fold, existing, c), w) ==
      (db, if |existing| == 1 && IsSame(fold, existing[0], c) then Done(Provisioned(existing[0]), Some(c), false)
           else Done(Refused(MappingConflict), Some(c), false))
  {
  }

  lemma ExistingEnds(fold: string -> string, found: Db, c: Claim)
    ensures
      var existing := ConflictRows(found.rows, c);
      EndsWithExisting(fold, found, c, found,
        if |existing| == 1 && IsSame(fold, existing[0], c) then Done(Provisioned(existing[0]), Some(c), false)
        else Done(Refused(MappingConflict), Some(c), false))
  {
    var rows := found.rows;
    forall i | Settles(fold, rows, c, i)
      ensures ConflictRows(rows, c) == [rows[i]]
    {
      assert forall j :: 0 <= j < |rows| ==> (Conflicts(rows[j], c) <==> Concerns(rows[j], c));
      OnlyConflict(rows, c, i);
    }
    if |ConflictRows(rows, c)| == 1 && IsSame(fold, ConflictRows(rows, c)[0], c) {
      var k := SingleConflictAt(rows, c);
      assert Settles(fold, rows, c, k);
    }
  }

  /** Where the only conflicting row stands. */
  lemma {:induction false} SingleConflictAt(rows: seq<Mapping>, c: Claim) returns (k: nat)
    requires |ConflictRows(rows, c)| == 1
    ensures k < |rows| && ConflictRows(rows, c) == [rows[k]]
    ensures forall j :: 0 <= j < |rows| ==> (Concerns(rows[j], c) <==> j == k)
  {
    var n := |rows| - 1;
    var earlier := ConflictRows(rows[..n], c);
    if Conflicts(rows[n], c) {
      k := n;
      ConflictRowsExactly(rows[..n], c);
      forall j | 0 <= j < n
        ensures !Concerns(rows[j], c)
      {
        assert rows[..n][j] == rows[j] && rows[j] !in earlier;
        assert rows[j] in rows[..n];
      }
    } else {
      k := SingleConflictAt(rows[..n], c);
      assert forall j :: 0 <= j < n ==> rows[..n][j] == rows[j];
    }
  }

  lemma CommitEnds(fold: string -> string, user: User, required: bool, db: Db, upn: string, c: Claim, m: Mapping, h: History,
                   w: Waits)
    requires NothingConcerns(w.atRead.rows, c)
    requires IsNewMapping(fold, user, upn, c, w.input.id, m) && IsHistoryOf(h, m, c.oid, c)
    ensures var (after, p) := Conclude(fold, Resolve(user, required), db, Committing(c, m, h), w);
            EndsVouched(fold, user, upn, c, w, after, p)
  {
    var job := Resolve(user, required);
    if Rejected(w.atCommit.rows, w.input.id, c.oid) {
      var r :| r in w.atCommit.rows && (r.id == w.input.id || r.oid == Some(c.oid));
      assert Collide(r, m);
      assert Conclude(fold, job, db, Committing(c, m, h), w) == Conclude(fold, job, w.atCommit, Rereading(c), w);
      RereadEnds(fold, job, w.atCommit, c, w);
    } else {
      assert Admits(w.atCommit.rows, m);
      var after := Db(w.atCommit.rows + [m], w.atCommit.history + [h]);
      assert Conclude(fold, job, db, Committing(c, m, h), w) == Conclude(fold, job, after, Auditing(c, m, true), w);
      assert Conclude(fold, job, after, Auditing(c, m, true), w) == (after, Done(Provisioned(m), Some(c), true));
    }
  }

  lemma ReadEnds(fold: string -> string, user: User, required: bool, db: Db, upn: string, c: Claim, w: Waits)
    ensures var (after, p) := Conclude(fold, Resolve(user, required), db, Reading(upn, c), w);
            EndsVouched(fold, user, upn, c, w, after, p)
  {
    var job := Resolve(user, required);
    var rows := w.atRead.rows;
    var next := AfterRead(fold, rows, user, upn, c, w.input.id);
    assert Conclude(fold, job, db, Reading(upn, c), w) == Conclude(fold, job, w.atRead, next, w);
    ConflictRowsExactly(rows, c);
    var existing := ConflictRows(rows, c);
    if NothingConcerns(rows, c) {
      NoConflict(rows, c);
      CommitEnds(fold, user, required, w.atRead, upn, c, next.mapping, next.history, w);
    } else {
      var r :| r in rows && Concerns(r, c);
      assert Conflicts(r, c) && r in existing;
      ExistingEnds(fold, w.atRead, c);
      AgreedConcludes(fold, job, w.atRead, existing, c, w);
    }
  }

  /** How `resolve_identity` ends: D365 vouches for a claim, or it does not. */
  predicate ResolveEnds(fold: string -> string, user: User, required: bool, w: Waits, after: Db, p: Phase) {
    if NothingLooksUp(w.atLookup.rows, user.oid) && VouchedFor(fold, user, w.input).Some? then
      EndsVouched(fold, user, UpnOf(fold, user), VouchedFor(fold, user, w.input).value, w, after, p)
    else EndsUnvouched(fold, user, required, w, after, p)
  }

  /** The claim that D365 vouches for, if it does for any; VouchedExactly says which one that is. */
  function VouchedFor(fold: string -> string, user: User, i: Input): Option<Claim> {
    if !Complete(i.config) || Parse(user.oid).None? || !i.reply.Entries? || |i.reply.entries| != 1 || !i.reply.entries[0].Record?
    then None
    else
      var k, row := i.config.value, i.reply.entries[0].row;
      var c := Claim(Print(Parse(user.oid).value), Strip(GetText(row, k.personnelNumber.value.s)), Strip(GetText(row, k.company.value.s)));
      if Vouched(fold, user, i, UpnOf(fold, user), c) then Some(c) else None
  }

  lemma VouchedExactly(fold: string -> string, user: User, i: Input, upn: string, c: Claim)
    ensures Vouched(fold, user, i, upn, c) <==> VouchedFor(fold, user, i) == Some(c) && upn == UpnOf(fold, user)
  {
  }

  // From the answer of D365 back to the start.

  predicate Names(k: Config, f: Fields)
    requires Complete(Some(k))
  {
    && f.entraOid == k.entraOid.value.s && f.entraUpn == k.entraUpn.value.s
    && f.personnelNumber == k.personnelNumber.value.s && f.company == k.company.value.s
  }

  lemma RecordVerified(fold: string -> string, user: User, upn: string, oid: string, f: Fields, k: Config, row: Row, c: Claim)
    requires Complete(Some(k)) && Names(k, f) && Canonical(user.oid) == Some(oid)
    requires c == Claim(oid, Strip(GetText(row, k.personnelNumber.value.s)), Strip(GetText(row, k.company.value.s)))
    ensures VerifyRecord(fold, row, f, oid, upn) == if RowVouches(fold, k, row, user.oid, upn, c) then Some(c) else None
  {
    var text := PyStr(Get(row, f.entraOid));
    if Parse(text).Some? {
      CanonicalText(text, user.oid);
    }
  }

  /** The answers of D365 that vouch for nobody. */
  lemma UnvouchedAsk(fold: string -> string, user: User, required: bool, upn: string, oid: string, f: Fields, w: Waits)
    requires NothingLooksUp(w.atLookup.rows, user.oid)
    requires HasUpn(fold, user, UpnOf(fold, user)) && IsPrintable(UpnOf(fold, user)) && upn == UpnOf(fold, user)
    requires Canonical(user.oid) == Some(oid) && Complete(w.input.config)
    requires AfterReply(fold, w.input.reply, upn, oid, f, required).Done?
    ensures EndsUnvouched(fold, user, required, w, w.atLookup, AfterReply(fold, w.input.reply, upn, oid, f, required))
  {
    NoOneLooksUp(w.atLookup.rows, user.oid);
  }

  /** One record: it vouches for the claim it makes, or for none. */
  lemma RecordEnds(fold: string -> string, user: User, required: bool, oid: string, f: Fields, w: Waits)
    requires HasUpn(fold, user, UpnOf(fold, user)) && IsPrintable(UpnOf(fold, user))
    requires Canonical(user.oid) == Some(oid) && Complete(w.input.config) && Names(w.input.config.value, f)
    ensures
      var next := AfterReply(fold, w.input.reply, UpnOf(fold, user), oid, f, required);
      && (next.Reading? <==> VouchedFor(fold, user, w.input).Some?)
      && (next.Reading? ==> next == Reading(UpnOf(fold, user), VouchedFor(fold, user, w.input).value))
      && (next.Reading? || next.Done?)
  {
    var reply, upn := w.input.reply, UpnOf(fold, user);
    if reply.Entries? && |reply.entries| == 1 && reply.entries[0].Record? {
      var k, row := w.input.config.value, reply.entries[0].row;
      var c := Claim(oid, Strip(GetText(row, k.personnelNumber.value.s)), Strip(GetText(row, k.company.value.s)));
      RecordVerified(fold, user, upn, oid, f, k, row, c);
      assert AfterReply(fold, reply, upn, oid, f, required) ==
        if RowVouches(fold, k, row, user.oid, upn, c) then Reading(upn, c) else Fail(MappingConflict);
      assert VouchedFor(fold, user, w.input) == if RowVouches(fold, k, row, user.oid, upn, c) then Some(c) else None;
    } else {
      assert VouchedFor(fold, user, w.input) == None;
    }
  }

  lemma AskEnds(fold: string -> string, user: User, required: bool, db: Db, oid: string, f: Fields, w: Waits)
    requires NothingLooksUp(w.atLookup.rows, user.oid) && db == w.atLookup
    requires HasUpn(fold, user, UpnOf(fold, user)) && IsPrintable(UpnOf(fold, user))
    requires Canonical(user.oid) == Some(oid) && Complete(w.input.config) && Names(w.input.config.value, f)
    ensures var (after, p) := Conclude(fold, Resolve(user, required), db, Asking(UpnOf(fold, user), oid, f), w);
            ResolveEnds(fold, user, required, w, after, p)
  {
    var upn := UpnOf(fold, user);
    AskConcludes(fold, user, required, db, upn, oid, f, w);
    RecordEnds(fold, user, required, oid, f, w);
    var next := AfterReply(fold, w.input.reply, upn, oid, f, required);
    if next.Reading? {
      ReadEnds(fold, user, required, db, upn, next.claim, w);
    } else {
      UnvouchedAsk(fold, user, required, upn, oid, f, w);
    }
  }

  lemma AskConcludes(fold: string -> string, user: User, required: bool, db: Db, upn: string, oid: string, f: Fields, w: Waits)
    ensures
      var job, next := Resolve(user, required), AfterReply(fold, w.input.reply, upn, oid, f, required);
      && Conclude(fold, job, db, Asking(upn, oid, f), w) == Conclude(fold, job, db, next, w)
      && (next.Done? ==> Conclude(fold, job, db, next, w) == (db, next))
  {
  }

  lemma NoOneLooksUp(rows: seq<Mapping>, token: string)
    requires NothingLooksUp(rows, token)
    ensures forall k :: 0 <= k < |rows| ==> !OnlyLooksUp(rows, token, k)
  {
    assert forall k :: OnlyLooksUp(rows, token, k) ==> AnswersLookup(rows, token, k);
  }

  lemma UnvouchedConfig(fold: string -> string, user: User, required: bool, oid: string, w: Waits)
    requires NothingLooksUp(w.atLookup.rows, user.oid)
    requires HasUpn(fold, user, UpnOf(fold, user)) && Canonical(user.oid) == Some(oid)
    requires !(Complete(w.input.config) && IsPrintable(UpnOf(fold, user)))
    ensures
      var next := AfterConfig(w.input.config, UpnOf(fold, user), oid);
      next.Done? && EndsUnvouched(fold, user, required, w, w.atLookup, next)
  {
    NoOneLooksUp(w.atLookup.rows, user.oid);
  }

  lemma ConfigConcludes(fold: string -> string, user: User, required: bool, db: Db, upn: string, oid: string, w: Waits)
    ensures
      var job, next := Resolve(user, required), AfterConfig(w.input.config, upn, oid);
      && Conclude(fold, job, db, Configuring(upn, oid), w) == Conclude(fold, job, db, next, w)
      && (next.Done? ==> Conclude(fold, job, db, next, w) == (db, next))
  {
  }

  lemma ConfigEnds(fold: string -> string, user: User, required: bool, db: Db, oid: string, w: Waits)
    requires NothingLooksUp(w.atLookup.rows, user.oid) && db == w.atLookup
    requires HasUpn(fold, user, UpnOf(fold, user)) && Canonical(user.oid) == Some(oid)
    ensures var (after, p) := Conclude(fold, Resolve(user, required), db, Configuring(UpnOf(fold, user), oid), w);
            ResolveEnds(fold, user, required, w, after, p)
  {
    var upn := UpnOf(fold, user);
    ConfigConcludes(fold, user, required, db, upn, oid, w);
    if Complete(w.input.config) && IsPrintable(upn) {
      AskEnds(fold, user, required, db, oid, AfterConfig(w.input.config, upn, oid).fields, w);
    } else {
      UnvouchedConfig(fold, user, required, oid, w);
    }
  }

  lemma LookUpFront(rows: seq<Mapping>, token: string, i: int)
    requires rows != [] && 0 <= i < |rows| - 1
    ensures AnswersLookup(rows[..|rows| - 1], token, i) <==> AnswersLookup(rows, token, i)
  {
  }

  /** What the lookup finds, by position. */
  lemma {:induction false} VerifiedByPosition(rows: seq<Mapping>, token: string)
    ensures VerifiedRows(rows, token) == [] <==> NothingLooksUp(rows, token)
    ensures forall k :: 0 <= k < |rows| && OnlyLooksUp(rows, token, k) ==> VerifiedRows(rows, token) == [rows[k]]
    ensures |VerifiedRows(rows, token)| == 1 ==> exists k :: 0 <= k < |rows| && OnlyLooksUp(rows, token, k)
  {
    if rows != [] {
      var n := |rows| - 1;
      var front := rows[..n];
      VerifiedByPosition(front, token);
      forall i | 0 <= i < n
        ensures AnswersLookup(front, token, i) <==> AnswersLookup(rows, token, i)
      {
        LookUpFront(rows, token, i);
      }
      if AnswersLookup(rows, token, n) {
        if NothingLooksUp(front, token) {
          assert OnlyLooksUp(rows, token, n);
        }
      } else if |VerifiedRows(front, token)| == 1 {
        var k :| 0 <= k < n && OnlyLooksUp(front, token, k);
        assert OnlyLooksUp(rows, token, k);
      }
      forall k | 0 <= k < |rows| && OnlyLooksUp(rows, token, k)
        ensures VerifiedRows(rows, token) == [rows[k]]
      {
        if k < n {
          assert OnlyLooksUp(front, token, k);
        } else {
          assert NothingLooksUp(front, token);
        }
      }
    }
  }

  /**
    `resolve_identity` as a whole, from the rows and inputs it meets: which answer it gives, when it inserts a
    mapping, which mapping and history row those are, and that the tables are otherwise left alone.
  */
  lemma ResolveEndsExactly(fold: string -> string, user: User, required: bool, db: Db, w: Waits)
    ensures var (after, p) := Conclude(fold, Resolve(user, required), db, Starting, w);
            ResolveEnds(fold, user, required, w, after, p)
  {
    var job := Resolve(user, required);
    var rows := w.atLookup.rows;
    var next := AfterLookup(fold, rows, user, required);
    assert Conclude(fold, job, db, Starting, w) == Conclude(fold, job, w.atLookup, next, w);
    VerifiedByPosition(rows, user.oid);
    if NothingLooksUp(rows, user.oid) {
      NoOneLooksUp(rows, user.oid);
      if HasUpn(fold, user, UpnOf(fold, user)) && Parse(user.oid).Some? {
        ConfigEnds(fold, user, required, w.atLookup, Canonical(user.oid).value, w);
      }
    } else {
      var k :| 0 <= k < |rows| && AnswersLookup(rows, user.oid, k);
    }
  }

  /**
    A call inserts exactly when nothing answers its lookup, D365 vouches for it, nothing concerns the claim at
    the read, and the commit is admitted.
  */
  lemma InsertsExactlyWhen(fold: string -> string, user: User, required: bool, db: Db, w: Waits)
    ensures var p := Conclude(fold, Resolve(user, required), db, Starting, w).1;
      p.Done? &&
      (p.inserted <==>
        && NothingLooksUp(w.atLookup.rows, user.oid)
        && exists upn, c ::
          && Vouched(fold, user, w.input, upn, c)
          && NothingConcerns(w.atRead.rows, c) && !Rejected(w.atCommit.rows, w.input.id, c.oid))
  {
    ResolveEndsExactly(fold, user, required, db, w);
    if VouchedFor(fold, user, w.input).Some? {
      VouchedExactly(fold, user, w.input, UpnOf(fold, user), VouchedFor(fold, user, w.input).value);
    }
    forall upn, c | Vouched(fold, user, w.input, upn, c)
      ensures VouchedFor(fold, user, w.input) == Some(c)
    {
      VouchedExactly(fold, user, w.input, upn, c);
    }
  }

  /** In every run: a `resolve_identity` that was not aborted ends so, for the tables and inputs it met at its own steps. */
  lemma RunResolvesExactly(fold: string -> string, s: System, actions: seq<Action>, t: nat, db: Db)
    requires t !in s.tasks && t in Run(fold, s, actions).tasks && Abort(t) !in actions
    requires Run(fold, s, actions).tasks[t].at.Done? && Run(fold, s, actions).tasks[t].job.Resolve?
    ensures
      var task := Run(fold, s, actions).tasks[t];
      exists w, after ::
        && Met(fold, s, actions, |actions|, t, w)
        && ResolveEnds(fold, task.job.user, task.job.required, w, after, task.at)
  {
    RunConcludes(fold, s, actions, t, db);
    var task := Run(fold, s, actions).tasks[t];
    var w :| Met(fold, s, actions, |actions|, t, w) && Conclude(fold, task.job, db, Starting, w).1 == task.at;
    ResolveEndsExactly(fold, task.job.user, task.job.required, db, w);
    var after := Conclude(fold, task.job, db, Starting, w).0;
    assert ResolveEnds(fold, task.job.user, task.job.required, w, after, task.at);
  }

  // The manual tool.

  /** An existing row stands in the way of the tool: it ignores disabled rows of the employee. */
  predicate StandsInTheWay(r: Mapping, c: Claim) {
    r.oid == Some(c.oid) || (r.personnel == c.personnel && r.company == Some(c.company) && r.enabled)
  }

  /** How the tool ends, from its arguments and the tables it meets. */
  predicate CreateEnds(fold: string -> string, job: Job, w: Waits, after: Db, p: Phase)
    requires job.Create?
  {
    p.Done? &&
    if Parse(job.oid).None? || Parse(job.approvedBy).None? then p.outcome == Crashed && !p.inserted && after == w.atLookup
    else
      var c := Claim(Print(Parse(job.oid).value), Strip(job.personnel), Strip(job.company));
      if !(1 <= |c.personnel| <= 64 && 1 <= |c.company| <= 32) || (exists r :: r in w.atLookup.rows && StandsInTheWay(r, c)) then
        p.outcome == Refused(ToolRefused) && !p.inserted && after == w.atLookup
      else if Rejected(w.atCommit.rows, w.input.id, c.oid) then p.outcome == Crashed && !p.inserted && after == w.atCommit
      else
        && p.outcome.Created? && p.inserted
        && var m := p.outcome.mapping;
        && m.id == w.input.id && m.oid == Some(c.oid) && m.personnel == c.personnel && m.company == Some(c.company)
        && FoldedOrNone(fold, job.upn, m.upn) && FoldedOrNone(fold, job.email, m.email)
        && m.source == ManualApproved && m.verified && m.enabled
        && |after.history| > 0 && var h := after.history[|after.history| - 1];
        && IsHistoryOf(h, m, Print(Parse(job.approvedBy).value), c)
        && Grown(w.atCommit, after, m, h)
  }

  lemma ManualCommitEnds(fold: string -> string, job: Job, db: Db, c: Claim, m: Mapping, h: History, w: Waits)
    requires job.Create? && m.id == w.input.id && m.oid == Some(c.oid)
    ensures Conclude(fold, job, db, Committing(c, m, h), w) ==
      if Rejected(w.atCommit.rows, w.input.id, c.oid) then (w.atCommit, Done(Crashed, Some(c), false))
      else (Db(w.atCommit.rows + [m], w.atCommit.history + [h]), Done(Created(m), Some(c), true))
  {
    if Rejected(w.atCommit.rows, w.input.id, c.oid) {
      var r :| r in w.atCommit.rows && (r.id == w.input.id || r.oid == Some(c.oid));
      assert Collide(r, m);
    } else {
      assert Admits(w.atCommit.rows, m);
    }
  }

  /** The manual tool as a whole, from its arguments and the tables it meets. */
  lemma CreateEndsExactly(fold: string -> string, job: Job, db: Db, w: Waits)
    requires job.Create?
    ensures var (after, p) := Conclude(fold, job, db, Starting, w); CreateEnds(fold, job, w, after, p)
  {
    var next := AfterManualRead(fold, w.atLookup.rows, job, w.input.id);
    assert Conclude(fold, job, db, Starting, w) == Conclude(fold, job, w.atLookup, next, w);
    if next.Committing? {
      ManualCommitEnds(fold, job, w.atLookup, next.claim, next.mapping, next.history, w);
    }
    if Parse(job.oid).Some? && Parse(job.approvedBy).Some? {
      var c := Claim(Print(Parse(job.oid).value), Strip(job.personnel), Strip(job.company));
      assert forall r :: r in w.atLookup.rows ==> (ConflictsManually(r, c) <==> StandsInTheWay(r, c));
    }
  }
}
