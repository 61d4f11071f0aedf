/** Leave balances (`leave_service.py`): a filter is sent upstream and every returned row is checked again. */
module Leave {
  import opened Wrappers
  import opened Text
  import opened PyJson
  import opened ODataQuery
  import opened ODataGrammar
  import opened QueryParams

  /**
    Library behaviour left abstract: `str.casefold`, the texts `Decimal` accepts, and those of them that
    denote a finite number, which is what the response model accepts.
  */
  datatype Py = Py(fold: string -> string, isDecimal: string -> bool, isFinite: string -> bool)

  /** The allow-listed keys of a field mapping ("leaveType", "taken", ...), and any other key. */
  datatype FieldKey = LeaveType | Taken | Total | Available | Hidden | OtherKey(name: string)

  type Fields = seq<(FieldKey, string)>

  /** An enabled configuration row; `fieldMapping` lists the JSON object's members in order. */
  datatype Config = Config(
    entity: string,
    personnelField: Option<string>,
    companyField: Option<string>,
    fieldMapping: seq<(FieldKey, Json)>)

  datatype Identity = Identity(personnel: string, company: Option<string>)

  /** ModelRejected is the validation error of the response model, which is not a portal error. */
  datatype LeaveError =
    NotConfigured | Unavailable | Conflict | ModelRejected | BadQuery(error: QueryError) | UpstreamFailed

  type Upstream = (string, Query) -> Reply

  datatype Request = Request(entity: string, query: Query, fields: Fields)

  datatype Batch = Batch(rows: seq<Row>, fields: Fields)

  datatype Decimal = Decimal(text: string)

  datatype Balance = Balance(
    leaveType: string, available: Option<Decimal>, taken: Option<Decimal>, total: Option<Decimal>)

  predicate Truthy(s: Option<string>) {
    s.Some? && s.value != ""
  }

  /** Whether the company takes part in the query and in the checks. */
  predicate Scoped(c: Config, id: Identity) {
    Truthy(c.companyField) && Truthy(id.company)
  }

  // Configuration.

  function CheckConfig(c: Config): Result<Config, LeaveError> {
    if !IsIdentifier(c.entity) then Err(BadQuery(BadIdentifier))
    else if Truthy(c.companyField) && !IsIdentifier(c.companyField.value) then Err(BadQuery(BadIdentifier))
    else Ok(c)
  }

  function AllowedFields(raw: seq<(FieldKey, Json)>): Result<Fields, LeaveError> {
    if raw == [] then Ok([])
    else
      var (key, value) := raw[0];
      if !key.OtherKey? && value.Str? then
        if !IsIdentifier(value.s) then Err(BadQuery(BadIdentifier))
        else
          var rest := AllowedFields(raw[1..]);
          if rest.Err? then rest else Ok([(key, value.s)] + rest.value)
      else AllowedFields(raw[1..])
  }

  function Lookup(fields: Fields, key: FieldKey): Option<string> {
    if fields == [] then None
    else if fields[0].0 == key then Some(fields[0].1)
    else Lookup(fields[1..], key)
  }

  function ValidatedFields(raw: seq<(FieldKey, Json)>): Result<Fields, LeaveError> {
    var fields := AllowedFields(raw);
    if fields.Ok? && Lookup(fields.value, LeaveType).None? then Err(NotConfigured) else fields
  }

  // The request.

  /** The equalities the service is entitled to ask for. */
  function Wanted(c: Config, id: Identity): seq<Equality>
    requires c.personnelField.Some?
  {
    [Equality(c.personnelField.value, id.personnel)] +
    if Scoped(c, id) then [Equality(c.companyField.value, id.company.value)] else []
  }

  function Selected(c: Config, id: Identity, fields: Fields): seq<string>
    requires c.personnelField.Some?
  {
    [c.personnelField.value] + seq(|fields|, i requires 0 <= i < |fields| => fields[i].1) +
    if Scoped(c, id) then [c.companyField.value] else []
  }

  function Plan(c: Config, id: Identity): Result<Request, LeaveError> {
    var fields := ValidatedFields(c.fieldMapping);
    if fields.Err? then Err(fields.error)
    else if !Truthy(c.personnelField) then Err(NotConfigured)
    else if !IsIdentifier(c.personnelField.value) then Err(BadQuery(BadIdentifier))
    else
      var filter := Filter(Wanted(c, id));
      if filter.Err? then Err(BadQuery(filter.error))
      else Ok(Request(
        c.entity,
        Query(FirstOccurrences(Selected(c, id, fields.value)), Some(filter.value), [], [], Some(100), None, None,
          Some(Scoped(c, id))),
        fields.value))
  }

  // The second check on every row.

  predicate Passes(py: Py, c: Config, id: Identity, row: Row)
    requires c.personnelField.Some?
  {
    && GetText(row, c.personnelField.value) == id.personnel
    && (Scoped(c, id) ==>
      py.fold(GetText(row, c.companyField.value)) == py.fold(id.company.value))
  }

  // What a filter means for a row, under a given equality of texts.

  function Holds(equal: (string, string) -> bool, e: Expr, row: Row): bool {
    match e
    case Eq(field, value) => equal(GetText(row, field), value)
    case And(left, right) => Holds(equal, left, row) && Holds(equal, right, row)
  }

  function Exact(): (string, string) -> bool {
    (a, b) => a == b
  }

  /** Equality up to case. */
  function UpToCase(py: Py): (string, string) -> bool {
    (a, b) => py.fold(a) == py.fold(b)
  }

  lemma {:induction false} HoldsForConjuncts(equal: (string, string) -> bool, e: Expr, row: Row)
    ensures Holds(equal, e, row) <==> forall c :: c in Conjuncts(e) ==> equal(GetText(row, c.field), c.value)
  {
    match e {
      case Eq(field, value) => assert Conjuncts(e) == [Equality(field, value)];
      case And(left, right) =>
        HoldsForConjuncts(equal, left, row);
        HoldsForConjuncts(equal, right, row);
        assert forall c :: c in Conjuncts(e) <==> c in Conjuncts(left) || c in Conjuncts(right);
    }
  }

  function Rows(entries: seq<Entry>): (rows: seq<Row>)
    requires forall e :: e in entries ==> e.Record?
  {
    seq(|entries|, i requires 0 <= i < |entries| => entries[i].row)
  }

  /** What `_records` returns for any upstream behaviour. */
  function Records(py: Py, c: Config, id: Identity, upstream: Upstream): Result<Batch, LeaveError> {
    var plan := Plan(c, id);
    if plan.Err? then Err(plan.error)
    else
      match upstream(plan.value.entity, plan.value.query)
      case Failed => Err(UpstreamFailed)
      case NotAList => Err(Unavailable)
      case Entries(entries) =>
        if forall e :: e in entries ==> e.Record? && Passes(py, c, id, e.row)
        then Ok(Batch(Rows(entries), plan.value.fields))
        else Err(Conflict)
  }

  method FetchRecords(py: Py, c: Config, id: Identity, upstream: Upstream) returns (r: Result<Batch, LeaveError>)
    ensures r == Records(py, c, id, upstream)
  {
    var plan := Plan(c, id);
    if plan.Err? {
      return Err(plan.error);
    }
    var reply := upstream(plan.value.entity, plan.value.query);
    if reply.Failed? {
      return Err(UpstreamFailed);
    }
    if reply.NotAList? {
      return Err(Unavailable);
    }
    var validated: seq<Row> := [];
    for i := 0 to |reply.entries|
      invariant forall k :: 0 <= k < i ==> reply.entries[k].Record? && Passes(py, c, id, reply.entries[k].row)
      invariant |validated| == i && forall k :: 0 <= k < i ==> validated[k] == reply.entries[k].row
    {
      var raw := reply.entries[i];
      assert raw in reply.entries;
      if raw.NotARecord? {
        return Err(Conflict);
      }
      if GetText(raw.row, c.personnelField.value) != id.personnel {
        return Err(Conflict);
      }
      if Scoped(c, id) {
        var returned := GetText(raw.row, c.companyField.value);
        if py.fold(returned) != py.fold(id.company.value) {
          return Err(Conflict);
        }
      }
      validated := validated + [raw.row];
    }
    assert forall e :: e in reply.entries ==> e.Record? && Passes(py, c, id, e.row);
    assert validated == Rows(reply.entries);
    return Ok(Batch(validated, plan.value.fields));
  }

  /** A row in which the filter text is true up to case, and the personnel number is exactly the one asked for. */
  predicate Meets(py: Py, c: Config, id: Identity, filter: string, row: Row)
    requires c.personnelField.Some?
  {
    && Parsed(filter).Some? && Holds(UpToCase(py), Parsed(filter).value, row)
    && GetText(row, c.personnelField.value) == id.personnel
  }

  /**
    The filter on the wire asks for exactly the wanted equalities. The second check passes every row in which
    that filter is true, and only rows in which it is true up to case; it is exact about the personnel number.
  */
  lemma FilterIsRecheck(py: Py, c: Config, id: Identity, row: Row)
    requires Plan(c, id).Ok?
    ensures
      var filter := Plan(c, id).value.query.filter.value;
      && Read(filter) == Some(Wanted(c, id))
      && (Holds(Exact(), Parsed(filter).value, row) ==> Passes(py, c, id, row))
      && (Passes(py, c, id, row) <==> Meets(py, c, id, filter, row))
  {
    var es := Wanted(c, id);
    FilterReadsBack(es);
    var e := Parsed(Plan(c, id).value.query.filter.value).value;
    HoldsForConjuncts(Exact(), e, row);
    HoldsForConjuncts(UpToCase(py), e, row);
    assert es[0] in es && (Scoped(c, id) ==> es[1] in es);
  }

  /**
    Once a request is sent, its list is accepted exactly when every entry is a row that meets the filter
    text, and then every row is kept in order.
  */
  lemma AcceptedIffFilterHonoured(py: Py, c: Config, id: Identity, upstream: Upstream)
    requires Plan(c, id).Ok?
    requires upstream(Plan(c, id).value.entity, Plan(c, id).value.query).Entries?
    ensures
      var request := Plan(c, id).value;
      var entries := upstream(request.entity, request.query).entries;
      var r := Records(py, c, id, upstream);
      && (r.Ok? <==> forall e :: e in entries ==> e.Record? && Meets(py, c, id, request.query.filter.value, e.row))
      && (r.Ok? ==> |r.value.rows| == |entries| && forall i :: 0 <= i < |entries| ==> entries[i] == Record(r.value.rows[i]))
      && (r.Err? ==> r.error == Conflict)
  {
    var request := Plan(c, id).value;
    var entries := upstream(request.entity, request.query).entries;
    forall e | e in entries && e.Record?
      ensures Meets(py, c, id, request.query.filter.value, e.row) <==> Passes(py, c, id, e.row)
    {
      FilterIsRecheck(py, c, id, e.row);
    }
  }

  /** An upstream that evaluates the filter exactly is never refused. */
  lemma ExactUpstreamAccepted(py: Py, c: Config, id: Identity, upstream: Upstream)
    requires Plan(c, id).Ok?
    requires upstream(Plan(c, id).value.entity, Plan(c, id).value.query).Entries?
    requires
      var request := Plan(c, id).value;
      var filter := Parsed(request.query.filter.value);
      filter.Some? && forall e :: e in upstream(request.entity, request.query).entries ==>
        e.Record? && Holds(Exact(), filter.value, e.row)
    ensures Records(py, c, id, upstream).Ok?
  {
    var request := Plan(c, id).value;
    forall e | e in upstream(request.entity, request.query).entries
      ensures Meets(py, c, id, request.query.filter.value, e.row)
    {
      FilterIsRecheck(py, c, id, e.row);
    }
    AcceptedIffFilterHonoured(py, c, id, upstream);
  }

  /** Every request the service sends is one `to_params` accepts. */
  lemma {:induction false} AllowedFieldsAreIdentifiers(raw: seq<(FieldKey, Json)>)
    ensures AllowedFields(raw).Ok? ==> forall f :: f in AllowedFields(raw).value ==> IsIdentifier(f.1)
  {
    if raw != [] {
      AllowedFieldsAreIdentifiers(raw[1..]);
    }
  }

  lemma PlannedQueriesAccepted(c: Config, id: Identity)
    requires CheckConfig(c).Ok? && Plan(c, id).Ok?
    ensures Accepted(Plan(c, id).value.query)
  {
    AllowedFieldsAreIdentifiers(c.fieldMapping);
    var names := Selected(c, id, Plan(c, id).value.fields);
    FirstOccurrencesInOrder(names);
  }

  // Projection of the rows.

  function IsHidden(py: Py, v: Json): Result<bool, LeaveError> {
    match v
    case Bool(b) => Ok(b)
    case Int(n) => if n == 0 then Ok(false) else if n == 1 then Ok(true) else Err(Conflict)
    case Str(s) =>
      var normalized := py.fold(Strip(s));
      if normalized == "true" || normalized == "yes" || normalized == "1" then Ok(true)
      else if normalized == "false" || normalized == "no" || normalized == "0" then Ok(false)
      else Err(Conflict)
    case _ => Err(Conflict)
  }

  function RequiredValue(v: Json): Result<string, LeaveError> {
    if v.Str? && Strip(v.s) != "" then Ok(v.s) else Err(Conflict)
  }

  function Number(py: Py, v: Json): Result<Option<Decimal>, LeaveError> {
    if v.Null? || v == Str("") then Ok(None)
    else if v.Bool? || !py.isDecimal(PyStr(v)) then Err(Conflict)
    else Ok(Some(Decimal(PyStr(v))))
  }

  predicate Finite(py: Py, d: Option<Decimal>) {
    d.Some? ==> py.isFinite(d.value.text)
  }

  /** `raw.get(fields.get(key, ""))` */
  function FieldValue(fields: Fields, row: Row, key: FieldKey): Json {
    var name := Lookup(fields, key);
    Get(row, if name.Some? then name.value else "")
  }

  /** None for a row that is not shown. */
  function Shown(py: Py, fields: Fields, row: Row): Result<Option<Balance>, LeaveError> {
    var hidden := if Lookup(fields, Hidden).Some? then IsHidden(py, FieldValue(fields, row, Hidden)) else Ok(false);
    if hidden.Err? then Err(hidden.error)
    else if hidden.value then Ok(None)
    else
      var leaveType := RequiredValue(FieldValue(fields, row, LeaveType));
      var available := Number(py, FieldValue(fields, row, Available));
      var taken := Number(py, FieldValue(fields, row, Taken));
      var total := Number(py, FieldValue(fields, row, Total));
      if leaveType.Err? || available.Err? || taken.Err? || total.Err? then Err(Conflict)
      else if !Finite(py, available.value) || !Finite(py, taken.value) || !Finite(py, total.value) then Err(ModelRejected)
      else Ok(Some(Balance(leaveType.value, available.value, taken.value, total.value)))
  }

  /** The names of the columns the projection is configured to read. */
  function Mapped(fields: Fields): set<string> {
    set f | f in fields :: f.1
  }

  lemma {:induction false} LookupIsMapped(fields: Fields, key: FieldKey)
    ensures Lookup(fields, key).Some? ==> Lookup(fields, key).value in Mapped(fields)
  {
    if fields != [] {
      LookupIsMapped(fields[1..], key);
      assert fields == [fields[0]] + fields[1..];
    }
  }

  /**
    Nothing outside the allow-listed columns reaches the answer: rows that agree on the mapped columns are
    shown alike. A number that is not mapped is read from the column with the empty name.
  */
  lemma OnlyMappedColumnsMatter(py: Py, fields: Fields, row: Row, other: Row)
    requires Lookup(fields, LeaveType).Some?
    requires forall name :: name in Mapped(fields) ==> Get(row, name) == Get(other, name)
    requires Get(row, "") == Get(other, "")
      || (Lookup(fields, Available).Some? && Lookup(fields, Taken).Some? && Lookup(fields, Total).Some?)
    ensures Shown(py, fields, row) == Shown(py, fields, other)
  {
    LookupIsMapped(fields, Hidden);
    LookupIsMapped(fields, LeaveType);
    LookupIsMapped(fields, Available);
    LookupIsMapped(fields, Taken);
    LookupIsMapped(fields, Total);
  }

  /** The column with the empty name is read for a number that is not mapped. */
  lemma EmptyColumnIsRead(py: Py)
    requires py.isDecimal("7") && py.isFinite("7")
    ensures
      var fields := [(LeaveType, "Type")];
      Shown(py, fields, map["Type" := Str("Annual"), "" := Str("7")]) ==
      Ok(Some(Balance("Annual", Some(Decimal("7")), Some(Decimal("7")), Some(Decimal("7")))))
  {
    assert Strip("Annual") == "Annual";
  }

  /** So a number that is not mapped is shown as absent exactly when that column is absent or blank. */
  lemma UnmappedNumberAbsentIff(py: Py, fields: Fields, row: Row)
    requires Shown(py, fields, row).Ok? && Shown(py, fields, row).value.Some?
    ensures
      var b := Shown(py, fields, row).value.value;
      var blank := Get(row, "") == Null || Get(row, "") == Str("");
      && (Lookup(fields, Available).None? ==> (b.available.None? <==> blank))
      && (Lookup(fields, Taken).None? ==> (b.taken.None? <==> blank))
      && (Lookup(fields, Total).None? ==> (b.total.None? <==> blank))
  {
  }

  /** A hidden row is skipped whatever its other columns hold, so a malformed hidden row is no conflict. */
  lemma HiddenRowsAreNotRead(py: Py, fields: Fields, row: Row, other: Row)
    requires Lookup(fields, Hidden).Some? && Shown(py, fields, row) == Ok(None)
    requires Get(row, Lookup(fields, Hidden).value) == Get(other, Lookup(fields, Hidden).value)
    ensures Shown(py, fields, other) == Ok(None)
  {
  }

  /** The rows that are shown, in order. */
  function Visible(py: Py, b: Batch): seq<Row>
    decreases |b.rows|
  {
    if b.rows == [] then []
    else
      var last := b.rows[|b.rows| - 1];
      var earlier := Visible(py, b.(rows := b.rows[..|b.rows| - 1]));
      if Shown(py, b.fields, last) == Ok(None) then earlier else earlier + [last]
  }

  predicate Readable(py: Py, b: Batch) {
    forall row :: row in b.rows ==> Shown(py, b.fields, row).Ok?
  }

  /** The error of the first row that cannot be interpreted. */
  predicate IsFirstError(py: Py, b: Batch, e: LeaveError) {
    exists i ::
      && 0 <= i < |b.rows| && Shown(py, b.fields, b.rows[i]) == Err(e)
      && forall j :: 0 <= j < i ==> Shown(py, b.fields, b.rows[j]).Ok?
  }

  /** `balances` is the image, in order, of the shown rows of the batch. */
  predicate IsImage(py: Py, b: Batch, balances: seq<Balance>) {
    var v := Visible(py, b);
    && |balances| == |v|
    && forall i :: 0 <= i < |v| ==> Shown(py, b.fields, v[i]) == Ok(Some(balances[i]))
  }

  /** The batch `get_balances` works on: the primary one, or the fallback when the primary has no rows. */
  function Source(py: Py, primary: Option<Config>, fallback: Option<Config>, id: Identity, upstream: Upstream):
      Result<Batch, LeaveError> {
    if primary.None? then Err(NotConfigured)
    else if CheckConfig(primary.value).Err? then Err(CheckConfig(primary.value).error)
    else
      var first := Records(py, primary.value, id, upstream);
      if first.Err? || first.value.rows != [] || fallback.None? then first
      else if CheckConfig(fallback.value).Err? then Err(CheckConfig(fallback.value).error)
      else Records(py, fallback.value, id, upstream)
  }

  /**
    The answer is the ordered image of the shown rows of one source, and there is an answer exactly
    when that source could be read and each of its rows, hidden or not, can be interpreted. Otherwise the
    error is that of the source, or of the first row that is refused.
  */
  method GetBalances(py: Py, primary: Option<Config>, fallback: Option<Config>, id: Identity, upstream: Upstream)
    returns (r: Result<seq<Balance>, LeaveError>)
    ensures
      var source := Source(py, primary, fallback, id, upstream);
      && (source.Err? ==> r == Err(source.error))
      && (source.Ok? && Readable(py, source.value) ==> r.Ok? && IsImage(py, source.value, r.value))
      && (source.Ok? && !Readable(py, source.value) ==> r.Err? && IsFirstError(py, source.value, r.error))
    ensures BalancesAre(py, primary, fallback, id, upstream, r)
  {
    if primary.None? {
      r := Err(NotConfigured);
    } else if CheckConfig(primary.value).Err? {
      r := Err(CheckConfig(primary.value).error);
    } else {
      var batch := FetchRecords(py, primary.value, id, upstream);
      if batch.Ok? && batch.value.rows == [] && fallback.Some? {
        if CheckConfig(fallback.value).Err? {
          batch := Err(CheckConfig(fallback.value).error);
        } else {
          batch := FetchRecords(py, fallback.value, id, upstream);
        }
      }
      if batch.Err? {
        r := Err(batch.error);
      } else {
        r := Project(py, batch.value);
      }
    }
    BalancesExactly(py, primary, fallback, id, upstream, r);
  }

  /** One row of the projection; None is a row that is skipped. */
  method ShowRow(py: Py, fields: Fields, raw: Row) returns (r: Result<Option<Balance>, LeaveError>)
    ensures r == Shown(py, fields, raw)
  {
    if Lookup(fields, Hidden).Some? {
      var hidden := IsHidden(py, FieldValue(fields, raw, Hidden));
      if hidden.Err? {
        return Err(hidden.error);
      }
      if hidden.value {
        return Ok(None);
      }
    }
    var leaveType := RequiredValue(FieldValue(fields, raw, LeaveType));
    if leaveType.Err? {
      return Err(Conflict);
    }
    var available := Number(py, FieldValue(fields, raw, Available));
    var taken := Number(py, FieldValue(fields, raw, Taken));
    var total := Number(py, FieldValue(fields, raw, Total));
    if available.Err? || taken.Err? || total.Err? {
      return Err(Conflict);
    }
    if !Finite(py, available.value) || !Finite(py, taken.value) || !Finite(py, total.value) {
      return Err(ModelRejected);
    }
    return Ok(Some(Balance(leaveType.value, available.value, taken.value, total.value)));
  }

  predicate Projected(py: Py, b: Batch, balances: seq<Balance>) {
    Readable(py, b) && IsImage(py, b, balances)
  }

  lemma VisibleGrows(py: Py, fields: Fields, rows: seq<Row>, raw: Row)
    ensures
      var earlier := Visible(py, Batch(rows, fields));
      Visible(py, Batch(rows + [raw], fields)) ==
      if Shown(py, fields, raw) == Ok(None) then earlier else earlier + [raw]
  {
    assert (rows + [raw])[..|rows|] == rows;
  }

  lemma ProjectedGrows(py: Py, fields: Fields, rows: seq<Row>, balances: seq<Balance>, raw: Row)
    requires Projected(py, Batch(rows, fields), balances) && Shown(py, fields, raw).Ok?
    ensures
      var shown := Shown(py, fields, raw).value;
      Projected(py, Batch(rows + [raw], fields), if shown.None? then balances else balances + [shown.value])
  {
    VisibleGrows(py, fields, rows, raw);
  }

  lemma ProjectedNext(py: Py, b: Batch, n: nat, balances: seq<Balance>)
    requires n < |b.rows| && Projected(py, Batch(b.rows[..n], b.fields), balances) && Shown(py, b.fields, b.rows[n]).Ok?
    ensures
      var shown := Shown(py, b.fields, b.rows[n]).value;
      Projected(py, Batch(b.rows[..n + 1], b.fields), if shown.None? then balances else balances + [shown.value])
  {
    var front, last := b.rows[..n], b.rows[n];
    var longer := b.rows[..n + 1];
    assert longer == front + [last];
    ProjectedGrows(py, b.fields, front, balances, last);
  }

  lemma FirstUnreadableRow(py: Py, b: Batch, n: nat)
    requires n < |b.rows| && Readable(py, Batch(b.rows[..n], b.fields)) && Shown(py, b.fields, b.rows[n]).Err?
    ensures !Readable(py, b) && IsFirstError(py, b, Shown(py, b.fields, b.rows[n]).error)
  {
    assert b.rows[n] in b.rows;
    forall j | 0 <= j < n
      ensures Shown(py, b.fields, b.rows[j]).Ok?
    {
      assert b.rows[j] in b.rows[..n];
    }
  }

  method Project(py: Py, b: Batch) returns (r: Result<seq<Balance>, LeaveError>)
    ensures Readable(py, b) ==> r.Ok? && IsImage(py, b, r.value)
    ensures !Readable(py, b) ==> r.Err? && IsFirstError(py, b, r.error)
  {
    var balances: seq<Balance> := [];
    for i := 0 to |b.rows|
      invariant Projected(py, Batch(b.rows[..i], b.fields), balances)
    {
      var shown := ShowRow(py, b.fields, b.rows[i]);
      if shown.Err? {
        FirstUnreadableRow(py, b, i);
        return Err(shown.error);
      }
      ProjectedNext(py, b, i, balances);
      if shown.value.Some? {
        balances := balances + [shown.value.value];
      }
    }
    assert b.rows[..|b.rows|] == b.rows;
    return Ok(balances);
  }

  // The answer, from the raw configuration and rows.

  /** `name` is the column mapped to this key: the first text listed for it. */
  predicate ColumnOf(raw: seq<(FieldKey, Json)>, key: FieldKey, name: string) {
    exists i :: 0 <= i < |raw| && raw[i] == (key, Str(name)) && forall j :: 0 <= j < i ==> !(raw[j].0 == key && raw[j].1.Str?)
  }

  predicate Unmapped(raw: seq<(FieldKey, Json)>, key: FieldKey) {
    forall i :: 0 <= i < |raw| ==> !(raw[i].0 == key && raw[i].1.Str?)
  }

  /** What the row holds for a key; for a key that is not mapped, what it holds under the empty name. */
  ghost predicate Cell(raw: seq<(FieldKey, Json)>, row: Row, key: FieldKey, v: Json) {
    (Unmapped(raw, key) && v == Get(row, "")) || exists name :: ColumnOf(raw, key, name) && v == Get(row, name)
  }

  predicate ReadsTrue(py: Py, v: Json) {
    v == Bool(true) || v == Int(1) || (v.Str? && py.fold(Strip(v.s)) in {"true", "yes", "1"})
  }

  predicate ReadsFalse(py: Py, v: Json) {
    v == Bool(false) || v == Int(0) || (v.Str? && py.fold(Strip(v.s)) in {"false", "no", "0"})
  }

  /** "hidden" is mapped, and the row says yes. */
  ghost predicate Hides(py: Py, raw: seq<(FieldKey, Json)>, row: Row) {
    exists name :: ColumnOf(raw, Hidden, name) && ReadsTrue(py, Get(row, name))
  }

  /** "hidden" is mapped, and the row says neither yes nor no. */
  ghost predicate BadFlag(py: Py, raw: seq<(FieldKey, Json)>, row: Row) {
    exists name :: ColumnOf(raw, Hidden, name) && !ReadsTrue(py, Get(row, name)) && !ReadsFalse(py, Get(row, name))
  }

  predicate Blank(v: Json) {
    v == Null || v == Str("")
  }

  predicate IsNumber(py: Py, v: Json) {
    Blank(v) || (!v.Bool? && py.isDecimal(PyStr(v)))
  }

  /** The number shown for a value. */
  predicate NumberOf(py: Py, v: Json, d: Option<Decimal>) {
    IsNumber(py, v) && if Blank(v) then d == None else d == Some(Decimal(PyStr(v))) && py.isFinite(PyStr(v))
  }

  /** The row has a leave type, and numbers where numbers belong. */
  ghost predicate WellFormed(py: Py, raw: seq<(FieldKey, Json)>, row: Row) {
    && (exists text :: Cell(raw, row, LeaveType, Str(text)) && Strip(text) != "")
    && (exists v :: Cell(raw, row, Available, v) && IsNumber(py, v))
    && (exists v :: Cell(raw, row, Taken, v) && IsNumber(py, v))
    && (exists v :: Cell(raw, row, Total, v) && IsNumber(py, v))
  }

  /** `b` shows the row: its leave type and each number, from its own column. */
  ghost predicate Presents(py: Py, raw: seq<(FieldKey, Json)>, row: Row, b: Balance) {
    && !Hides(py, raw, row) && !BadFlag(py, raw, row)
    && Cell(raw, row, LeaveType, Str(b.leaveType)) && Strip(b.leaveType) != ""
    && (exists v :: Cell(raw, row, Available, v) && NumberOf(py, v, b.available))
    && (exists v :: Cell(raw, row, Taken, v) && NumberOf(py, v, b.taken))
    && (exists v :: Cell(raw, row, Total, v) && NumberOf(py, v, b.total))
  }

  predicate StartsWithColumn(raw: seq<(FieldKey, Json)>, key: FieldKey) {
    raw != [] && raw[0].0 == key && raw[0].1.Str?
  }

  lemma UnmappedCons(raw: seq<(FieldKey, Json)>, key: FieldKey)
    requires raw != []
    ensures Unmapped(raw, key) <==> !StartsWithColumn(raw, key) && Unmapped(raw[1..], key)
  {
    var rest := raw[1..];
    if Unmapped(raw, key) {
      forall i | 0 <= i < |rest|
        ensures !(rest[i].0 == key && rest[i].1.Str?)
      {
        assert rest[i] == raw[i + 1];
      }
    }
    if !StartsWithColumn(raw, key) && Unmapped(rest, key) {
      forall i | 0 <= i < |raw|
        ensures !(raw[i].0 == key && raw[i].1.Str?)
      {
        if i > 0 { assert raw[i] == rest[i - 1]; }
      }
    }
  }

  lemma FirstColumn(raw: seq<(FieldKey, Json)>, key: FieldKey, name: string)
    requires StartsWithColumn(raw, key)
    ensures ColumnOf(raw, key, name) <==> raw[0].1.s == name
  {
    if raw[0].1.s == name {
      assert raw[0] == (key, Str(name));
    }
  }

  lemma LaterColumn(raw: seq<(FieldKey, Json)>, key: FieldKey, name: string)
    requires raw != [] && !StartsWithColumn(raw, key)
    ensures ColumnOf(raw, key, name) <==> ColumnOf(raw[1..], key, name)
  {
    var rest := raw[1..];
    if ColumnOf(raw, key, name) {
      var i :| 0 <= i < |raw| && raw[i] == (key, Str(name)) && forall j :: 0 <= j < i ==> !(raw[j].0 == key && raw[j].1.Str?);
      assert i > 0 && rest[i - 1] == (key, Str(name));
      forall j | 0 <= j < i - 1
        ensures !(rest[j].0 == key && rest[j].1.Str?)
      {
        assert rest[j] == raw[j + 1];
      }
    }
    if ColumnOf(rest, key, name) {
      var i :| 0 <= i < |rest| && rest[i] == (key, Str(name)) && forall j :: 0 <= j < i ==> !(rest[j].0 == key && rest[j].1.Str?);
      assert raw[i + 1] == (key, Str(name));
      forall j | 0 <= j < i + 1
        ensures !(raw[j].0 == key && raw[j].1.Str?)
      {
        if j > 0 { assert raw[j] == rest[j - 1]; }
      }
    }
  }

  lemma {:induction false} LookupColumn(raw: seq<(FieldKey, Json)>, key: FieldKey, name: string)
    requires AllowedFields(raw).Ok? && !key.OtherKey?
    ensures Lookup(AllowedFields(raw).value, key).None? <==> Unmapped(raw, key)
    ensures ColumnOf(raw, key, name) <==> Lookup(AllowedFields(raw).value, key) == Some(name)
  {
    if raw != [] {
      LookupColumn(raw[1..], key, name);
      UnmappedCons(raw, key);
      if StartsWithColumn(raw, key) {
        FirstColumn(raw, key, name);
      } else {
        LaterColumn(raw, key, name);
      }
      if !raw[0].0.OtherKey? && raw[0].1.Str? {
        assert AllowedFields(raw).value[1..] == AllowedFields(raw[1..]).value;
      }
    }
  }

  /** The cell of a key is what the projection reads for it. */
  lemma CellIsFieldValue(raw: seq<(FieldKey, Json)>, row: Row, key: FieldKey)
    requires AllowedFields(raw).Ok? && !key.OtherKey?
    ensures forall v :: Cell(raw, row, key, v) <==> v == FieldValue(AllowedFields(raw).value, row, key)
  {
    var found := Lookup(AllowedFields(raw).value, key);
    forall name
      ensures ColumnOf(raw, key, name) <==> found == Some(name)
    {
      LookupColumn(raw, key, name);
    }
    LookupColumn(raw, key, "");
    if found.Some? {
      assert ColumnOf(raw, key, found.value);
    }
  }

  lemma FlagOfRow(py: Py, raw: seq<(FieldKey, Json)>, row: Row)
    requires AllowedFields(raw).Ok?
    ensures
      var fields := AllowedFields(raw).value;
      var v := FieldValue(fields, row, Hidden);
      && (Hides(py, raw, row) <==> Lookup(fields, Hidden).Some? && IsHidden(py, v) == Ok(true))
      && (BadFlag(py, raw, row) <==> Lookup(fields, Hidden).Some? && IsHidden(py, v) == Err(Conflict))
      && (IsHidden(py, v).Err? ==> IsHidden(py, v) == Err(Conflict))
  {
    var found := Lookup(AllowedFields(raw).value, Hidden);
    forall name
      ensures ColumnOf(raw, Hidden, name) <==> found == Some(name)
    {
      LookupColumn(raw, Hidden, name);
    }
    if found.Some? {
      assert ColumnOf(raw, Hidden, found.value);
    }
  }

  /** The cells of a row, as the projection reads them. */
  predicate CellsRead(py: Py, fields: Fields, row: Row, b: Balance) {
    && RequiredValue(FieldValue(fields, row, LeaveType)) == Ok(b.leaveType)
    && NumberOf(py, FieldValue(fields, row, Available), b.available)
    && NumberOf(py, FieldValue(fields, row, Taken), b.taken)
    && NumberOf(py, FieldValue(fields, row, Total), b.total)
  }

  predicate CellsWellFormed(py: Py, fields: Fields, row: Row) {
    && RequiredValue(FieldValue(fields, row, LeaveType)).Ok?
    && IsNumber(py, FieldValue(fields, row, Available))
    && IsNumber(py, FieldValue(fields, row, Taken))
    && IsNumber(py, FieldValue(fields, row, Total))
  }

  lemma PresentsCells(py: Py, raw: seq<(FieldKey, Json)>, row: Row, b: Balance)
    requires AllowedFields(raw).Ok?
    ensures Presents(py, raw, row, b) <==>
      !Hides(py, raw, row) && !BadFlag(py, raw, row) && CellsRead(py, AllowedFields(raw).value, row, b)
  {
    CellIsFieldValue(raw, row, LeaveType);
    CellIsFieldValue(raw, row, Available);
    CellIsFieldValue(raw, row, Taken);
    CellIsFieldValue(raw, row, Total);
  }

  lemma WellFormedCells(py: Py, raw: seq<(FieldKey, Json)>, row: Row)
    requires AllowedFields(raw).Ok?
    ensures
      var fields := AllowedFields(raw).value;
      WellFormed(py, raw, row) <==> CellsWellFormed(py, fields, row)
  {
    CellIsFieldValue(raw, row, LeaveType);
    CellIsFieldValue(raw, row, Available);
    CellIsFieldValue(raw, row, Taken);
    CellIsFieldValue(raw, row, Total);
    var v := FieldValue(AllowedFields(raw).value, row, LeaveType);
    if RequiredValue(v).Ok? {
      assert Cell(raw, row, LeaveType, Str(v.s));
    }
  }

  /** The projection, by its cells. */
  lemma ShownCells(py: Py, fields: Fields, row: Row)
    ensures
      var flag := if Lookup(fields, Hidden).Some? then IsHidden(py, FieldValue(fields, row, Hidden)) else Ok(false);
      var shown := Shown(py, fields, row);
      && (flag.Err? ==> shown == Err(flag.error))
      && (flag == Ok(true) ==> shown == Ok(None))
      && (flag == Ok(false) ==>
        && shown != Ok(None)
        && (shown.Ok? ==> CellsRead(py, fields, row, shown.value.value))
        && (shown.Err? ==> forall b :: !CellsRead(py, fields, row, b))
        && (shown.Err? ==> shown.error == if CellsWellFormed(py, fields, row) then ModelRejected else Conflict))
  {
  }

  /** The error of a row that is neither hidden nor shown. */
  ghost predicate RefusedWith(py: Py, raw: seq<(FieldKey, Json)>, row: Row, e: LeaveError) {
    e == if !BadFlag(py, raw, row) && WellFormed(py, raw, row) then ModelRejected else Conflict
  }

  /** What becomes of one row, from the raw configuration and the row. */
  lemma RowExactly(py: Py, raw: seq<(FieldKey, Json)>, row: Row)
    requires AllowedFields(raw).Ok?
    ensures
      var shown := Shown(py, AllowedFields(raw).value, row);
      && (shown == Ok(None) <==> Hides(py, raw, row))
      && (shown.Ok? && shown.value.Some? ==> Presents(py, raw, row, shown.value.value))
      && (shown.Err? ==> !Hides(py, raw, row) && RefusedWith(py, raw, row, shown.error))
      && (shown.Err? ==> forall b :: !Presents(py, raw, row, b))
  {
    FlagOfRow(py, raw, row);
    ShownCells(py, AllowedFields(raw).value, row);
    WellFormedCells(py, raw, row);
    forall b
      ensures Presents(py, raw, row, b) <==>
        !Hides(py, raw, row) && !BadFlag(py, raw, row) && CellsRead(py, AllowedFields(raw).value, row, b)
    {
      PresentsCells(py, raw, row, b);
    }
  }

  /** The positions of the rows that are not hidden, in order. */
  ghost predicate ShownRows(py: Py, raw: seq<(FieldKey, Json)>, rows: seq<Row>, shown: seq<nat>) {
    && (forall k, l :: 0 <= k < l < |shown| ==> shown[k] < shown[l])
    && (forall k :: 0 <= k < |shown| ==> shown[k] < |rows|)
    && (forall i :: 0 <= i < |rows| ==> (i in shown <==> !Hides(py, raw, rows[i])))
  }

  /** The row is neither hidden nor can it be shown. */
  ghost predicate Refused(py: Py, raw: seq<(FieldKey, Json)>, row: Row) {
    !Hides(py, raw, row) && forall b :: !Presents(py, raw, row, b)
  }

  /**
    The answer for these rows: the rows that are not hidden, each shown from its own columns, in order; or the
    error of the first row that is refused.
  */
  ghost predicate Answers(py: Py, raw: seq<(FieldKey, Json)>, rows: seq<Row>, r: Result<seq<Balance>, LeaveError>) {
    match r
    case Ok(balances) =>
      exists shown ::
        && ShownRows(py, raw, rows, shown) && |shown| == |balances|
        && forall k :: 0 <= k < |shown| ==> Presents(py, raw, rows[shown[k]], balances[k])
    case Err(e) =>
      exists i ::
        && 0 <= i < |rows| && Refused(py, raw, rows[i]) && RefusedWith(py, raw, rows[i], e)
        && forall j :: 0 <= j < i ==> !Refused(py, raw, rows[j])
  }

  lemma ShownGrows(py: Py, raw: seq<(FieldKey, Json)>, rows: seq<Row>, shown: seq<nat>, row: Row)
    requires ShownRows(py, raw, rows, shown)
    ensures ShownRows(py, raw, rows + [row], if Hides(py, raw, row) then shown else shown + [|rows|])
  {
    var all := rows + [row];
    var grown := if Hides(py, raw, row) then shown else shown + [|rows|];
    forall i | 0 <= i < |all|
      ensures i in grown <==> !Hides(py, raw, all[i])
    {
      if i < |rows| {
        assert all[i] == rows[i];
      } else {
        assert i !in shown;
      }
    }
  }

  /** The visible rows are those at these positions. */
  predicate RowsAt(rows: seq<Row>, shown: seq<nat>, visible: seq<Row>) {
    |shown| == |visible| && forall k :: 0 <= k < |shown| ==> shown[k] < |rows| && visible[k] == rows[shown[k]]
  }

  lemma RowsAtMore(rows: seq<Row>, shown: seq<nat>, visible: seq<Row>, row: Row)
    requires RowsAt(rows, shown, visible)
    ensures RowsAt(rows + [row], shown, visible) && RowsAt(rows + [row], shown + [|rows|], visible + [row])
  {
    assert forall k :: 0 <= k < |rows| ==> (rows + [row])[k] == rows[k];
  }

  lemma {:induction false} VisibleRows(py: Py, raw: seq<(FieldKey, Json)>, fields: Fields, rows: seq<Row>)
      returns (shown: seq<nat>)
    requires AllowedFields(raw) == Ok(fields)
    ensures ShownRows(py, raw, rows, shown) && RowsAt(rows, shown, Visible(py, Batch(rows, fields)))
  {
    if rows == [] {
      shown := [];
    } else {
      var front, last := rows[..|rows| - 1], rows[|rows| - 1];
      assert rows == front + [last];
      var earlier := VisibleRows(py, raw, fields, front);
      var visible := Visible(py, Batch(front, fields));
      HiddenExactly(py, raw, fields, last);
      ShownGrows(py, raw, front, earlier, last);
      VisibleGrows(py, fields, front, last);
      RowsAtMore(front, earlier, visible, last);
      shown := if Hides(py, raw, last) then earlier else earlier + [|front|];
    }
  }

  lemma HiddenExactly(py: Py, raw: seq<(FieldKey, Json)>, fields: Fields, row: Row)
    requires AllowedFields(raw) == Ok(fields)
    ensures Shown(py, fields, row) == Ok(None) <==> Hides(py, raw, row)
  {
    RowExactly(py, raw, row);
  }

  lemma ImageAnswers(py: Py, raw: seq<(FieldKey, Json)>, b: Batch, balances: seq<Balance>)
    requires AllowedFields(raw) == Ok(b.fields) && IsImage(py, b, balances)
    ensures Answers(py, raw, b.rows, Ok(balances))
  {
    var shown := VisibleRows(py, raw, b.fields, b.rows);
    assert b == Batch(b.rows, b.fields);
    forall k | 0 <= k < |shown|
      ensures Presents(py, raw, b.rows[shown[k]], balances[k])
    {
      RowExactly(py, raw, b.rows[shown[k]]);
    }
  }

  lemma FirstErrorAnswers(py: Py, raw: seq<(FieldKey, Json)>, b: Batch, e: LeaveError)
    requires AllowedFields(raw) == Ok(b.fields) && IsFirstError(py, b, e)
    ensures Answers(py, raw, b.rows, Err(e))
  {
    var i :| && 0 <= i < |b.rows| && Shown(py, b.fields, b.rows[i]) == Err(e)
      && forall j :: 0 <= j < i ==> Shown(py, b.fields, b.rows[j]).Ok?;
    RowExactly(py, raw, b.rows[i]);
    forall j | 0 <= j < i
      ensures !Refused(py, raw, b.rows[j])
    {
      RowExactly(py, raw, b.rows[j]);
    }
  }

  // The request and the checks, from the raw configuration.

  /** Both the configuration and the identity have a company. */
  predicate HasCompany(c: Config, id: Identity) {
    c.companyField.Some? && c.companyField.value != "" && id.company.Some? && id.company.value != ""
  }

  /** Every allow-listed text of the field mapping is an identifier. */
  predicate GoodColumns(raw: seq<(FieldKey, Json)>) {
    forall i :: 0 <= i < |raw| && !raw[i].0.OtherKey? && raw[i].1.Str? ==> IsIdentifier(raw[i].1.s)
  }

  predicate Sendable(text: string) {
    '\0' !in text && '\r' !in text && '\n' !in text
  }

  /** A request can be made. */
  predicate CanAsk(c: Config, id: Identity) {
    && GoodColumns(c.fieldMapping) && !Unmapped(c.fieldMapping, LeaveType)
    && c.personnelField.Some? && IsIdentifier(c.personnelField.value) && Sendable(id.personnel)
    && (HasCompany(c, id) ==> IsIdentifier(c.companyField.value) && Sendable(id.company.value))
  }

  /** Why no request can be made. */
  predicate CannotAskBecause(c: Config, id: Identity, e: LeaveError) {
    if !GoodColumns(c.fieldMapping) then e == BadQuery(BadIdentifier)
    else if Unmapped(c.fieldMapping, LeaveType) then e == NotConfigured
    else if c.personnelField.None? || c.personnelField.value == "" then e == NotConfigured
    else if !IsIdentifier(c.personnelField.value) then e == BadQuery(BadIdentifier)
    else if !Sendable(id.personnel) then e == BadQuery(BadString)
    else if HasCompany(c, id) && !IsIdentifier(c.companyField.value) then e == BadQuery(BadIdentifier)
    else e == BadQuery(BadString)
  }

  /** The request that is sent. */
  predicate AsksFor(c: Config, id: Identity, entity: string, q: Query)
    requires c.personnelField.Some?
  {
    && entity == c.entity
    && q.top == Some(100) && q.skip == None && q.count == None && q.expand == [] && q.orderby == []
    && q.crossCompany == Some(HasCompany(c, id))
    && q.filter.Some?
    && Read(q.filter.value) == Some(
      if HasCompany(c, id) then
        [Equality(c.personnelField.value, id.personnel), Equality(c.companyField.value, id.company.value)]
      else [Equality(c.personnelField.value, id.personnel)])
    && (forall name :: name in q.select ==>
      || name == c.personnelField.value || (HasCompany(c, id) && name == c.companyField.value)
      || IsMappedColumn(c.fieldMapping, name))
    && c.personnelField.value in q.select && (HasCompany(c, id) ==> c.companyField.value in q.select)
    && (forall i :: 0 <= i < |c.fieldMapping| && !c.fieldMapping[i].0.OtherKey? && c.fieldMapping[i].1.Str? ==>
      c.fieldMapping[i].1.s in q.select)
    && (forall i, j :: 0 <= i < j < |q.select| ==> q.select[i] != q.select[j])
  }

  lemma {:induction false} AllowedColumns(raw: seq<(FieldKey, Json)>)
    ensures AllowedFields(raw).Ok? <==> GoodColumns(raw)
    ensures AllowedFields(raw).Err? ==> AllowedFields(raw).error == BadQuery(BadIdentifier)
    ensures AllowedFields(raw).Ok? ==> forall name ::
      (exists f :: f in AllowedFields(raw).value && f.1 == name) <==>
      (exists i :: 0 <= i < |raw| && !raw[i].0.OtherKey? && raw[i].1 == Str(name))
  {
    if raw != [] {
      var rest := raw[1..];
      AllowedColumns(rest);
      assert forall i :: 0 <= i < |rest| ==> rest[i] == raw[i + 1];
      assert forall i :: 1 <= i < |raw| ==> raw[i] == rest[i - 1];
    }
  }

  predicate CanPrint(e: Equality) {
    IsIdentifier(e.field) && Sendable(e.value)
  }

  function PrintError(e: Equality): QueryError {
    if !IsIdentifier(e.field) then BadIdentifier else BadString
  }

  lemma FilterOfTwo(es: seq<Equality>)
    requires 1 <= |es| <= 2
    ensures Filter(es).Ok? <==> forall e :: e in es ==> CanPrint(e)
    ensures Filter(es).Ok? ==> Read(Filter(es).value) == Some(es)
    ensures !CanPrint(es[0]) ==> Filter(es) == Err(PrintError(es[0]))
    ensures CanPrint(es[0]) && |es| == 2 && !CanPrint(es[1]) ==> Filter(es) == Err(PrintError(es[1]))
  {
    FilterReadsBack(es);
    if CanPrint(es[0]) && |es| == 2 && !CanPrint(es[1]) {
      assert es[1..][0] == es[1];
      assert EqualsAll(es[1..]) == Err(PrintError(es[1]));
    }
  }

  /** Some allow-listed key is mapped to this column. */
  predicate IsMappedColumn(raw: seq<(FieldKey, Json)>, name: string) {
    exists i :: 0 <= i < |raw| && !raw[i].0.OtherKey? && raw[i].1 == Str(name)
  }

  lemma MappedNames(raw: seq<(FieldKey, Json)>, name: string)
    requires AllowedFields(raw).Ok?
    ensures
      var fields := AllowedFields(raw).value;
      name in seq(|fields|, i requires 0 <= i < |fields| => fields[i].1) <==> IsMappedColumn(raw, name)
  {
    var fields := AllowedFields(raw).value;
    var columns := seq(|fields|, i requires 0 <= i < |fields| => fields[i].1);
    AllowedColumns(raw);
    if name in columns {
      var i :| 0 <= i < |columns| && columns[i] == name;
      assert fields[i] in fields && fields[i].1 == name;
    }
    if f :| f in fields && f.1 == name {
      var i :| 0 <= i < |fields| && fields[i] == f;
      assert columns[i] == name;
    }
  }

  lemma SelectedColumns(c: Config, id: Identity, name: string)
    requires AllowedFields(c.fieldMapping).Ok? && c.personnelField.Some?
    ensures name in Selected(c, id, AllowedFields(c.fieldMapping).value) <==>
      || name == c.personnelField.value || (HasCompany(c, id) && name == c.companyField.value)
      || IsMappedColumn(c.fieldMapping, name)
  {
    var fields := AllowedFields(c.fieldMapping).value;
    var columns := seq(|fields|, i requires 0 <= i < |fields| => fields[i].1);
    var company := if HasCompany(c, id) then [c.companyField.value] else [];
    assert Selected(c, id, fields) == [c.personnelField.value] + columns + company;
    MappedNames(c.fieldMapping, name);
  }

  lemma RequestAsks(c: Config, id: Identity)
    requires Plan(c, id).Ok?
    ensures AsksFor(c, id, Plan(c, id).value.entity, Plan(c, id).value.query)
  {
    var names := Selected(c, id, AllowedFields(c.fieldMapping).value);
    FilterOfTwo(Wanted(c, id));
    forall name
      ensures name in names <==>
        || name == c.personnelField.value || (HasCompany(c, id) && name == c.companyField.value)
        || IsMappedColumn(c.fieldMapping, name)
    {
      SelectedColumns(c, id, name);
    }
    FirstOccurrencesInOrder(names);
    AllowedColumns(c.fieldMapping);
    var q := Plan(c, id).value.query;
    if HasCompany(c, id) {
      assert Wanted(c, id) ==
        [Equality(c.personnelField.value, id.personnel), Equality(c.companyField.value, id.company.value)];
    } else {
      assert Wanted(c, id) == [Equality(c.personnelField.value, id.personnel)];
    }
    assert c.personnelField.value in names && (HasCompany(c, id) ==> c.companyField.value in names);
    forall i | 0 <= i < |c.fieldMapping| && !c.fieldMapping[i].0.OtherKey? && c.fieldMapping[i].1.Str?
      ensures c.fieldMapping[i].1.s in q.select
    {
      assert c.fieldMapping[i].1 == Str(c.fieldMapping[i].1.s);
    }
  }

  /** When a request is made, and why not. */
  lemma PlanExactly(c: Config, id: Identity)
    ensures Plan(c, id).Ok? <==> CanAsk(c, id)
    ensures Plan(c, id).Err? ==> CannotAskBecause(c, id, Plan(c, id).error)
    ensures Plan(c, id).Ok? ==> AllowedFields(c.fieldMapping) == Ok(Plan(c, id).value.fields)
  {
    AllowedColumns(c.fieldMapping);
    if GoodColumns(c.fieldMapping) {
      LookupColumn(c.fieldMapping, LeaveType, "");
      if c.personnelField.Some? {
        FilterOfTwo(Wanted(c, id));
      }
    }
  }

  /** The row is about this employee, and about the company if one was asked for. */
  predicate Belongs(py: Py, c: Config, id: Identity, row: Row)
    requires c.personnelField.Some?
  {
    && GetText(row, c.personnelField.value) == id.personnel
    && (HasCompany(c, id) ==> py.fold(GetText(row, c.companyField.value)) == py.fold(id.company.value))
  }

  /** What a reply gives: all of its rows, or the conflict. */
  predicate GivenReply(py: Py, c: Config, id: Identity, reply: Reply, r: Result<Batch, LeaveError>)
    requires c.personnelField.Some?
  {
    match reply
    case Failed => r == Err(UpstreamFailed)
    case NotAList => r == Err(Unavailable)
    case Entries(entries) =>
      if forall e :: e in entries ==> e.Record? && Belongs(py, c, id, e.row) then
        r.Ok? && |r.value.rows| == |entries| && forall i :: 0 <= i < |entries| ==> entries[i] == Record(r.value.rows[i])
      else r == Err(Conflict)
  }

  /** What `_records` makes of a configuration. */
  ghost predicate RecordsAre(py: Py, c: Config, id: Identity, upstream: Upstream, r: Result<Batch, LeaveError>) {
    if !CanAsk(c, id) then r.Err? && CannotAskBecause(c, id, r.error)
    else exists q :: AsksFor(c, id, c.entity, q) && GivenReply(py, c, id, upstream(c.entity, q), r)
  }

  lemma RecordsExactly(py: Py, c: Config, id: Identity, upstream: Upstream)
    ensures RecordsAre(py, c, id, upstream, Records(py, c, id, upstream))
    ensures Records(py, c, id, upstream).Ok? ==>
      AllowedFields(c.fieldMapping) == Ok(Records(py, c, id, upstream).value.fields)
  {
    PlanExactly(c, id);
    if CanAsk(c, id) {
      RequestAsks(c, id);
      var q := Plan(c, id).value.query;
      var r := Records(py, c, id, upstream);
      ReplyIsGiven(py, c, id, upstream);
      assert AsksFor(c, id, c.entity, q) && GivenReply(py, c, id, upstream(c.entity, q), r);
    }
  }

  lemma ReplyIsGiven(py: Py, c: Config, id: Identity, upstream: Upstream)
    requires Plan(c, id).Ok?
    ensures c.personnelField.Some?
    ensures GivenReply(py, c, id, upstream(c.entity, Plan(c, id).value.query), Records(py, c, id, upstream))
  {
    assert forall row :: Passes(py, c, id, row) <==> Belongs(py, c, id, row);
  }

  /** The configuration row is one the service accepts. */
  predicate GoodConfig(c: Config) {
    IsIdentifier(c.entity) && (c.companyField.Some? && c.companyField.value != "" ==> IsIdentifier(c.companyField.value))
  }

  /**
    `get_balances` as a whole, from the two configurations, the identity and what D365 answers: the primary
    configuration is used, and the fallback exactly when the primary gives no row and there is one.
  */
  ghost predicate BalancesAre(py: Py, primary: Option<Config>, fallback: Option<Config>, id: Identity, upstream: Upstream,
                              r: Result<seq<Balance>, LeaveError>) {
    if primary.None? then r == Err(NotConfigured)
    else if !GoodConfig(primary.value) then r == Err(BadQuery(BadIdentifier))
    else
      exists first ::
        && RecordsAre(py, primary.value, id, upstream, first)
        && if first.Err? || first.value.rows != [] || fallback.None? then FromRecords(py, primary.value, first, r)
           else FromFallback(py, fallback.value, id, upstream, r)
  }

  /** What the checks and the projection say about an answer. */
  predicate IsAnswerOf(py: Py, source: Result<Batch, LeaveError>, r: Result<seq<Balance>, LeaveError>) {
    && (source.Err? ==> r == Err(source.error))
    && (source.Ok? && Readable(py, source.value) ==> r.Ok? && IsImage(py, source.value, r.value))
    && (source.Ok? && !Readable(py, source.value) ==> r.Err? && IsFirstError(py, source.value, r.error))
  }

  /** What the answer is when the records of a configuration are the source. */
  ghost predicate FromRecords(py: Py, c: Config, first: Result<Batch, LeaveError>, r: Result<seq<Balance>, LeaveError>) {
    if first.Err? then r == Err(first.error) else Answers(py, c.fieldMapping, first.value.rows, r)
  }

  lemma RecordsAnswer(py: Py, c: Config, id: Identity, upstream: Upstream, r: Result<seq<Balance>, LeaveError>)
    ensures IsAnswerOf(py, Records(py, c, id, upstream), r) ==> FromRecords(py, c, Records(py, c, id, upstream), r)
  {
    var source := Records(py, c, id, upstream);
    RecordsExactly(py, c, id, upstream);
    if source.Ok? && IsAnswerOf(py, source, r) {
      if r.Ok? {
        ImageAnswers(py, c.fieldMapping, source.value, r.value);
      } else {
        FirstErrorAnswers(py, c.fieldMapping, source.value, r.error);
      }
    }
  }

  lemma BalancesExactly(py: Py, primary: Option<Config>, fallback: Option<Config>, id: Identity, upstream: Upstream,
                        r: Result<seq<Balance>, LeaveError>)
    ensures IsAnswerOf(py, Source(py, primary, fallback, id, upstream), r) ==>
      BalancesAre(py, primary, fallback, id, upstream, r)
  {
    if primary.Some? && GoodConfig(primary.value) {
      RecordsExactly(py, primary.value, id, upstream);
      RecordsAnswer(py, primary.value, id, upstream, r);
      if fallback.Some? {
        FallbackExactly(py, fallback.value, id, upstream, r);
      }
    }
  }

  /** The answer when the primary gave no row and there is a fallback. */
  ghost predicate FromFallback(py: Py, c: Config, id: Identity, upstream: Upstream, r: Result<seq<Balance>, LeaveError>) {
    if !GoodConfig(c) then r == Err(BadQuery(BadIdentifier))
    else exists second :: RecordsAre(py, c, id, upstream, second) && FromRecords(py, c, second, r)
  }

  lemma FallbackExactly(py: Py, c: Config, id: Identity, upstream: Upstream, r: Result<seq<Balance>, LeaveError>)
    ensures IsAnswerOf(py, if CheckConfig(c).Err? then Err(CheckConfig(c).error) else Records(py, c, id, upstream), r) ==>
      FromFallback(py, c, id, upstream, r)
  {
    if GoodConfig(c) {
      RecordsExactly(py, c, id, upstream);
      RecordsAnswer(py, c, id, upstream, r);
    }
  }

  /** The batch is everything `c` returned, and each of its rows meets the filter sent for `c`. */
  predicate ScopedBatch(py: Py, c: Config, id: Identity, upstream: Upstream, b: Batch) {
    && Plan(c, id).Ok?
    && Records(py, c, id, upstream) == Ok(b)
    && forall row :: row in b.rows ==> Meets(py, c, id, Plan(c, id).value.query.filter.value, row)
  }

  /**
    An answer comes from the primary configuration, or from the fallback after an empty primary;
    every row of that source, hidden or not, meets the filter that was sent for it.
  */
  lemma SourceRowsHonourFilter(
    py: Py, primary: Option<Config>, fallback: Option<Config>, id: Identity, upstream: Upstream)
    requires Source(py, primary, fallback, id, upstream).Ok?
    ensures
      var b := Source(py, primary, fallback, id, upstream).value;
      && primary.Some?
      && (|| ScopedBatch(py, primary.value, id, upstream, b)
          || (&& fallback.Some?
              && ScopedBatch(py, primary.value, id, upstream, Records(py, primary.value, id, upstream).value)
              && Records(py, primary.value, id, upstream).value.rows == []
              && ScopedBatch(py, fallback.value, id, upstream, b)))
  {
    var b := Source(py, primary, fallback, id, upstream).value;
    AcceptedIffFilterHonoured(py, primary.value, id, upstream);
    if Records(py, primary.value, id, upstream) != Ok(b) {
      AcceptedIffFilterHonoured(py, fallback.value, id, upstream);
    }
  }
}
