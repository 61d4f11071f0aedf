/**
  Identity mappings: the atomic segments, between two suspension points, of `resolve_identity` (with
  `find_verified` and `provision`) and of the manual `create_identity_mapping` tool.
*/
module Identity {
  import opened Wrappers
  import opened Text
  import opened PyJson
  import opened ODataQuery
  import opened Uuid

  // The committed tables.

  datatype Mapping = Mapping(
    id: nat,
    oid: Option<string>,
    upn: Option<string>,
    email: Option<string>,
    personnel: string,
    company: Option<string>,
    source: Source,
    verified: bool,
    enabled: bool)

  datatype Source = AutoVerified | ManualApproved | OtherSource(name: string)

  datatype History = History(mappingId: nat, changedBy: string, change: Source, oid: string, personnel: string, company: string)

  datatype Db = Db(rows: seq<Mapping>, history: seq<History>)

  /** The primary key and the unique object ID; NULL object IDs never collide. */
  predicate Collide(a: Mapping, b: Mapping) {
    a.id == b.id || (a.oid.Some? && a.oid == b.oid)
  }

  predicate Consistent(rows: seq<Mapping>) {
    forall i, j :: 0 <= i < j < |rows| ==> !Collide(rows[i], rows[j])
  }

  predicate Admits(rows: seq<Mapping>, m: Mapping) {
    forall r :: r in rows ==> !Collide(r, m)
  }

  // Who asks, and what D365 or an operator vouches for.

  datatype User = User(oid: string, username: Option<string>, email: Option<string>)

  datatype Job =
    | Resolve(user: User, required: bool)
    | Create(oid: string, approvedBy: string, personnel: string, company: string, upn: Option<string>, email: Option<string>)

  /** A canonical object ID with the personnel number and company vouched for it. */
  datatype Claim = Claim(oid: string, personnel: string, company: string)

  datatype Fields = Fields(entraOid: string, entraUpn: string, personnelNumber: string, company: string)

  /** The enabled "identity" configuration, with the members of its field mapping that matter. */
  datatype Config = Config(
    entity: string,
    entraOid: Option<Json>, entraUpn: Option<Json>, personnelNumber: Option<Json>, company: Option<Json>)

  datatype Refusal = MappingConflict | NotConfigured | Unavailable | MappingRequired | ToolRefused

  /** Crashed is any exception that is not a portal error, or a cancellation. */
  datatype Outcome =
    | Found(mapping: Mapping)
    | Provisioned(mapping: Mapping)
    | Created(mapping: Mapping)
    | Unmapped
    | Refused(reason: Refusal)
    | Crashed

  /** Where a task is suspended, with what it remembers. */
  datatype Phase =
    | Starting
    | Configuring(upn: string, oid: string)
    | Asking(upn: string, oid: string, fields: Fields)
    | Reading(upn: string, claim: Claim)
    | Committing(claim: Claim, mapping: Mapping, history: History)
    | Rereading(claim: Claim)
    | Auditing(claim: Claim, mapping: Mapping, inserted: bool)
    | Done(outcome: Outcome, about: Option<Claim>, inserted: bool)

  /** What the outside world supplies: the configuration, the answer of D365, a generated row ID. */
  datatype Input = Input(config: Option<Config>, reply: Reply, id: nat)

  // Small pieces.

  function Falsy(s: Option<string>): bool {
    s.None? || s.value == ""
  }

  function Folded(fold: string -> string, s: Option<string>): Option<string> {
    if Falsy(s) then None else Some(fold(s.value))
  }

  function Upn(fold: string -> string, user: User): string {
    if Falsy(user.username) then "" else Strip(fold(user.username.value))
  }

  function CompanyText(m: Mapping): string {
    if m.company.Some? then m.company.value else ""
  }

  predicate Fits(personnel: string, company: string) {
    0 < |personnel| <= 64 && 0 < |company| <= 32
  }

  function Fail(reason: Refusal): Phase {
    Done(Refused(reason), None, false)
  }

  /** `resolve_identity` when there is no mapping. */
  function NoMapping(required: bool): Phase {
    if required then Fail(MappingRequired) else Done(Unmapped, None, false)
  }

  // The queries.

  function VerifiedRows(rows: seq<Mapping>, oid: string): seq<Mapping> {
    if rows == [] then []
    else
      var r := rows[|rows| - 1];
      var earlier := VerifiedRows(rows[..|rows| - 1], oid);
      if r.oid == Some(oid) && r.enabled && r.verified then earlier + [r] else earlier
  }

  predicate Conflicts(r: Mapping, c: Claim) {
    r.oid == Some(c.oid) || (r.personnel == c.personnel && r.company == Some(c.company))
  }

  function ConflictRows(rows: seq<Mapping>, c: Claim): seq<Mapping> {
    if rows == [] then []
    else
      var r := rows[|rows| - 1];
      var earlier := ConflictRows(rows[..|rows| - 1], c);
      if Conflicts(r, c) then earlier + [r] else earlier
  }

  /** The manual tool ignores disabled rows of the same employee. */
  predicate ConflictsManually(r: Mapping, c: Claim) {
    r.oid == Some(c.oid) || (r.personnel == c.personnel && r.company == Some(c.company) && r.enabled)
  }

  predicate IsSame(fold: string -> string, m: Mapping, c: Claim) {
    && m.oid == Some(c.oid) && m.personnel == c.personnel
    && fold(CompanyText(m)) == fold(c.company)
    && m.enabled && m.verified
  }

  /** The rows a claim may be answered with. */
  function Agreed(fold: string -> string, existing: seq<Mapping>, c: Claim): Phase {
    if |existing| == 1 && IsSame(fold, existing[0], c) then Auditing(c, existing[0], false)
    else Done(Refused(MappingConflict), Some(c), false)
  }

  // Segments of resolve_identity.

  function BeginProvision(fold: string -> string, user: User, required: bool): Phase {
    if Upn(fold, user) == "" then NoMapping(required)
    else if Canonical(user.oid).None? then Fail(MappingConflict)
    else Configuring(Upn(fold, user), Canonical(user.oid).value)
  }

  /** find_verified, then the start of provision. */
  function AfterLookup(fold: string -> string, rows: seq<Mapping>, user: User, required: bool): Phase {
    var found := VerifiedRows(rows, user.oid);
    if |found| > 1 then Fail(MappingConflict)
    else if |found| == 1 then Done(Found(found[0]), None, false)
    else BeginProvision(fold, user, required)
  }

  predicate IsText(j: Option<Json>) {
    j.Some? && j.value.Str?
  }

  predicate BadName(j: Option<Json>) {
    IsText(j) && !IsIdentifier(j.value.s)
  }

  /** `_configuration` and `_validated_fields`: the field names, or how the call fails. */
  function ConfiguredFields(config: Option<Config>): Result<Fields, Outcome> {
    if config.None? then Err(Refused(NotConfigured))
    else
      var c := config.value;
      if !IsIdentifier(c.entity) || BadName(c.entraOid) || BadName(c.entraUpn) || BadName(c.personnelNumber)
        || BadName(c.company) then Err(Crashed)
      else if !IsText(c.entraOid) || !IsText(c.entraUpn) || !IsText(c.personnelNumber) || !IsText(c.company) then
        Err(Refused(NotConfigured))
      else Ok(Fields(c.entraOid.value.s, c.entraUpn.value.s, c.personnelNumber.value.s, c.company.value.s))
  }

  /** The filter on the UPN is built before D365 is asked. */
  function AfterConfig(config: Option<Config>, upn: string, oid: string): Phase {
    var fields := ConfiguredFields(config);
    if fields.Err? then Done(fields.error, None, false)
    else if Equals(Equality(fields.value.entraUpn, upn)).Err? then Done(Crashed, None, false)
    else Asking(upn, oid, fields.value)
  }

  /** `_verify_record`: the record must carry this very object ID and UPN. */
  function VerifyRecord(fold: string -> string, row: Row, f: Fields, oid: string, upn: string): Option<Claim> {
    var personnel := Strip(GetText(row, f.personnelNumber));
    var company := Strip(GetText(row, f.company));
    if Canonical(PyStr(Get(row, f.entraOid))) != Some(oid) then None
    else if Strip(fold(GetText(row, f.entraUpn))) != upn then None
    else if !Fits(personnel, company) then None
    else Some(Claim(oid, personnel, company))
  }

  function AfterReply(fold: string -> string, reply: Reply, upn: string, oid: string, f: Fields, required: bool): Phase {
    match reply
    case Failed => Fail(Unavailable)
    case NotAList => Fail(Unavailable)
    case Entries(entries) =>
      if entries == [] then NoMapping(required)
      else if |entries| != 1 || !entries[0].Record? then Fail(MappingConflict)
      else
        var claim := VerifyRecord(fold, entries[0].row, f, oid, upn);
        if claim.None? then Fail(MappingConflict) else Reading(upn, claim.value)
  }

  function NewMapping(id: nat, c: Claim, upn: Option<string>, email: Option<string>, source: Source): Mapping {
    Mapping(id, Some(c.oid), upn, email, c.personnel, Some(c.company), source, true, true)
  }

  function NewHistory(m: Mapping, changedBy: string, c: Claim): History {
    History(m.id, changedBy, m.source, c.oid, c.personnel, c.company)
  }

  function AfterRead(fold: string -> string, rows: seq<Mapping>, user: User, upn: string, c: Claim, id: nat): Phase {
    var existing := ConflictRows(rows, c);
    if existing != [] then Agreed(fold, existing, c)
    else
      var m := NewMapping(id, c, Some(upn), Folded(fold, user.email), AutoVerified);
      Committing(c, m, NewHistory(m, c.oid, c))
  }

  // The manual tool.

  function AfterManualRead(fold: string -> string, rows: seq<Mapping>, job: Job, id: nat): Phase
    requires job.Create?
  {
    var oid := Canonical(job.oid);
    var approver := Canonical(job.approvedBy);
    var personnel := Strip(job.personnel);
    var company := Strip(job.company);
    if oid.None? || approver.None? then Done(Crashed, None, false)
    else if !Fits(personnel, company) then Fail(ToolRefused)
    else
      var c := Claim(oid.value, personnel, company);
      if exists r :: r in rows && ConflictsManually(r, c) then Done(Refused(ToolRefused), Some(c), false)
      else
        var m := NewMapping(id, c, Folded(fold, job.upn), Folded(fold, job.email), ManualApproved);
        Committing(c, m, NewHistory(m, approver.value, c))
  }

  /** Both rows are inserted in one transaction, or neither. */
  function Commit(db: Db, job: Job, c: Claim, m: Mapping, h: History): (Db, Phase) {
    if Admits(db.rows, m) then
      (Db(db.rows + [m], db.history + [h]),
       if job.Resolve? then Auditing(c, m, true) else Done(Created(m), Some(c), true))
    else
      (db, if job.Resolve? then Rereading(c) else Done(Crashed, Some(c), false))
  }

  function Rank(p: Phase): nat {
    match p
    case Starting => 7
    case Configuring(_, _) => 6
    case Asking(_, _, _) => 5
    case Reading(_, _) => 4
    case Committing(_, _, _) => 3
    case Rereading(_) => 2
    case Auditing(_, _, _) => 1
    case Done(_, _, _) => 0
  }

  /** The next segment of a task, run against the tables as they are at that moment. */
  function Segment(fold: string -> string, db: Db, job: Job, p: Phase, i: Input): (r: (Db, Phase))
    ensures !p.Done? ==> Rank(r.1) < Rank(p)
  {
    match p
    case Starting =>
      (db, if job.Resolve? then AfterLookup(fold, db.rows, job.user, job.required)
           else AfterManualRead(fold, db.rows, job, i.id))
    case Configuring(upn, oid) => (db, AfterConfig(i.config, upn, oid))
    case Asking(upn, oid, f) =>
      (db, AfterReply(fold, i.reply, upn, oid, f, job.Resolve? && job.required))
    case Reading(upn, c) =>
      (db, if job.Resolve? then AfterRead(fold, db.rows, job.user, upn, c, i.id) else Done(Crashed, Some(c), false))
    case Committing(c, m, h) => Commit(db, job, c, m, h)
    case Rereading(c) => (db, Agreed(fold, ConflictRows(db.rows, c), c))
    case Auditing(c, m, inserted) => (db, Done(Provisioned(m), Some(c), inserted))
    case Done(_, _, _) => (db, p)
  }

  // Facts about the queries.

  lemma {:induction false} ConflictRowsExactly(rows: seq<Mapping>, c: Claim)
    ensures forall r :: r in ConflictRows(rows, c) <==> r in rows && Conflicts(r, c)
    ensures |ConflictRows(rows, c)| <= |rows|
  {
    if rows != [] {
      ConflictRowsExactly(rows[..|rows| - 1], c);
      assert rows == rows[..|rows| - 1] + [rows[|rows| - 1]];
    }
  }

  /** A single conflicting row is the whole answer of the query. */
  lemma {:induction false} OnlyConflict(rows: seq<Mapping>, c: Claim, k: nat)
    requires k < |rows| && forall i :: 0 <= i < |rows| ==> (Conflicts(rows[i], c) <==> i == k)
    ensures ConflictRows(rows, c) == [rows[k]]
  {
    var n := |rows| - 1;
    if k == n {
      NoConflict(rows[..n], c);
    } else {
      OnlyConflict(rows[..n], c, k);
    }
  }

  lemma {:induction false} NoConflict(rows: seq<Mapping>, c: Claim)
    requires forall r :: r in rows ==> !Conflicts(r, c)
    ensures ConflictRows(rows, c) == []
  {
    if rows != [] {
      NoConflict(rows[..|rows| - 1], c);
    }
  }

  lemma {:induction false} VerifiedRowsExactly(rows: seq<Mapping>, oid: string)
    ensures forall r :: r in VerifiedRows(rows, oid) <==> r in rows && r.oid == Some(oid) && r.enabled && r.verified
  {
    if rows != [] {
      VerifiedRowsExactly(rows[..|rows| - 1], oid);
      assert rows == rows[..|rows| - 1] + [rows[|rows| - 1]];
    }
  }

  lemma {:induction false} NoneVerified(rows: seq<Mapping>, oid: string)
    requires forall r :: r in rows && r.oid == Some(oid) ==> !(r.enabled && r.verified)
    ensures VerifiedRows(rows, oid) == []
  {
    if rows != [] {
      assert rows[|rows| - 1] in rows;
      NoneVerified(rows[..|rows| - 1], oid);
    }
  }

  /** A single enabled, verified row with the object ID is what the lookup finds. */
  lemma {:induction false} OnlyVerified(rows: seq<Mapping>, oid: string, k: nat)
    requires k < |rows| && rows[k].enabled && rows[k].verified
    requires forall i :: 0 <= i < |rows| ==> (rows[i].oid == Some(oid) <==> i == k)
    ensures VerifiedRows(rows, oid) == [rows[k]]
  {
    var n := |rows| - 1;
    if k == n {
      NoneVerified(rows[..n], oid);
    } else {
      OnlyVerified(rows[..n], oid, k);
    }
  }

  /** The unique object ID makes find_verified unambiguous. */
  lemma {:induction false} AtMostOneVerified(rows: seq<Mapping>, oid: string)
    requires Consistent(rows)
    ensures |VerifiedRows(rows, oid)| <= 1
  {
    if rows != [] {
      var n := |rows| - 1;
      AtMostOneVerified(rows[..n], oid);
      VerifiedRowsExactly(rows[..n], oid);
      if |VerifiedRows(rows[..n], oid)| == 1 {
        var r := VerifiedRows(rows[..n], oid)[0];
        assert r in VerifiedRows(rows[..n], oid);
        var i :| 0 <= i < n && rows[..n][i] == r;
        assert !Collide(rows[i], rows[n]);
      }
    }
  }
}
