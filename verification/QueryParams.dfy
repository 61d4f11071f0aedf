/** `ODataQuery.to_params`: a query as request parameters, and the reader that inverts it. */
module QueryParams {
  import opened Wrappers
  import opened Text
  import opened ODataQuery

  datatype Query = Query(
    select: seq<string>,
    filter: Option<string>,
    expand: seq<string>,
    orderby: seq<string>,
    top: Option<int>,
    skip: Option<int>,
    count: Option<bool>,
    crossCompany: Option<bool>)

  /** The system query options in use; KeyText gives the name each one has on the wire. */
  datatype Key = Select | FilterBy | Expand | OrderBy | Top | Skip | Count | CrossCompany

  function KeyText(k: Key): string {
    match k
    case Select => "$select"
    case FilterBy => "$filter"
    case Expand => "$expand"
    case OrderBy => "$orderby"
    case Top => "$top"
    case Skip => "$skip"
    case Count => "$count"
    case CrossCompany => "cross-company"
  }

  lemma KeyTextsDiffer(a: Key, b: Key)
    requires KeyText(a) == KeyText(b)
    ensures a == b
  {
    assert KeyText(a)[1] == KeyText(b)[1] && |KeyText(a)| == |KeyText(b)|;
    assert KeyText(a)[2] == KeyText(b)[2];
  }

  type Params = map<Key, string>

  predicate AllIdentifiers(names: seq<string>) {
    forall n :: n in names ==> IsIdentifier(n)
  }

  predicate NamesAccepted(q: Query) {
    AllIdentifiers(q.select) && AllIdentifiers(q.expand) && AllIdentifiers(q.orderby)
  }

  predicate TopInRange(q: Query) {
    q.top.Some? ==> 1 <= q.top.value <= 1000
  }

  predicate SkipInRange(q: Query) {
    q.skip.Some? ==> 0 <= q.skip.value
  }

  predicate Accepted(q: Query) {
    NamesAccepted(q) && TopInRange(q) && SkipInRange(q)
  }

  /** What the parameters can still tell: an empty filter is the same as no filter. */
  function Meaning(q: Query): Query {
    if q.filter == Some("") then q.(filter := None) else q
  }

  function BoolText(b: bool): string {
    if b then "true" else "false"
  }

  function ReadNames(p: Params, key: Key): seq<string> {
    if key in p then SplitComma(p[key]) else []
  }

  function ReadNumber(p: Params, key: Key): Option<int> {
    if key !in p then None else
      var n := ReadNat(p[key]);
      if n.None? then None else Some(n.value)
  }

  function ReadBool(p: Params, key: Key): Option<bool> {
    if key in p then Some(p[key] == "true") else None
  }

  function ReadFilter(p: Params): Option<string> {
    if FilterBy in p then Some(p[FilterBy]) else None
  }

  function Decode(p: Params): Query {
    Query(
      ReadNames(p, Select),
      ReadFilter(p),
      ReadNames(p, Expand),
      ReadNames(p, OrderBy),
      ReadNumber(p, Top),
      ReadNumber(p, Skip),
      ReadBool(p, Count),
      ReadBool(p, CrossCompany))
  }

  function NamesText(names: seq<string>): Option<string> {
    if names == [] then None else Some(JoinComma(names))
  }

  function NumberText(n: Option<int>): Option<string> {
    if n.None? then None else Some(IntText(n.value))
  }

  function FlagText(b: Option<bool>): Option<string> {
    if b.None? then None else Some(BoolText(b.value))
  }

  /** The text an option gets, if the query sets it. */
  function OptionText(q: Query, k: Key): Option<string> {
    match k
    case Select => NamesText(q.select)
    case FilterBy => if q.filter == Some("") then None else q.filter
    case Expand => NamesText(q.expand)
    case OrderBy => NamesText(q.orderby)
    case Top => NumberText(q.top)
    case Skip => NumberText(q.skip)
    case Count => FlagText(q.count)
    case CrossCompany => FlagText(q.crossCompany)
  }

  const ALL_KEYS: set<Key> := {Select, FilterBy, Expand, OrderBy, Top, Skip, Count, CrossCompany}

  /** The order in which `to_params` considers the options. */
  function Rank(k: Key): (r: nat)
    ensures r < 8
  {
    match k
    case Select => 0
    case FilterBy => 1
    case Expand => 2
    case OrderBy => 3
    case Top => 4
    case Skip => 5
    case Count => 6
    case CrossCompany => 7
  }

  /** The parameters after the first n options have been considered. */
  function Filled(q: Query, n: nat): Params {
    map k | k in ALL_KEYS && Rank(k) < n && OptionText(q, k).Some? :: OptionText(q, k).value
  }

  lemma NamesReadBack(names: seq<string>)
    requires names != [] && AllIdentifiers(names)
    ensures SplitComma(JoinComma(names)) == names
  {
    assert !IsNamePart(',');
    SplitJoin(names);
  }

  lemma NumberReadsBack(n: Option<int>)
    requires n.Some? ==> n.value >= 0
    ensures n.Some? ==> ReadNat(IntText(n.value)) == Some(n.value)
  {
    if n.Some? { ReadNatText(n.value); }
  }

  lemma NamesField(q: Query, k: Key, names: seq<string>)
    requires OptionText(q, k) == NamesText(names) && AllIdentifiers(names)
    ensures ReadNames(Filled(q, 8), k) == names
  {
    assert k in ALL_KEYS;
    if names != [] { NamesReadBack(names); }
  }

  lemma NumberField(q: Query, k: Key, n: Option<int>)
    requires OptionText(q, k) == NumberText(n) && (n.Some? ==> n.value >= 0)
    ensures ReadNumber(Filled(q, 8), k) == n
  {
    assert k in ALL_KEYS;
    NumberReadsBack(n);
  }

  lemma FlagField(q: Query, k: Key, b: Option<bool>)
    requires OptionText(q, k) == FlagText(b)
    ensures ReadBool(Filled(q, 8), k) == b
  {
    assert k in ALL_KEYS;
  }

  /** Reading the parameters of an accepted query gives the query back. */
  lemma ParamsReadBack(q: Query)
    requires Accepted(q)
    ensures Decode(Filled(q, 8)) == Meaning(q)
  {
    NamesField(q, Select, q.select);
    NamesField(q, Expand, q.expand);
    NamesField(q, OrderBy, q.orderby);
    NumberField(q, Top, q.top);
    NumberField(q, Skip, q.skip);
    FlagField(q, Count, q.count);
    FlagField(q, CrossCompany, q.crossCompany);
  }

  /** The query sends this text under this name. */
  predicate Sends(q: Query, name: string, text: string) {
    || (name == "$select" && q.select != [] && text == JoinComma(q.select))
    || (name == "$filter" && q.filter == Some(text) && text != "")
    || (name == "$expand" && q.expand != [] && text == JoinComma(q.expand))
    || (name == "$orderby" && q.orderby != [] && text == JoinComma(q.orderby))
    || (name == "$top" && q.top.Some? && text == IntText(q.top.value))
    || (name == "$skip" && q.skip.Some? && text == IntText(q.skip.value))
    || (name == "$count" && q.count.Some? && text == if q.count.value then "true" else "false")
    || (name == "cross-company" && q.crossCompany.Some? && text == if q.crossCompany.value then "true" else "false")
  }

  /** The parameters hold exactly what the query sends, each under its name on the wire. */
  ghost predicate OnTheWire(q: Query, p: Params) {
    && (forall k: Key :: k in p ==> Sends(q, KeyText(k), p[k]))
    && (forall name, text :: Sends(q, name, text) ==> exists k: Key :: k in p && KeyText(k) == name && p[k] == text)
  }

  lemma SentUnderKey(q: Query, k: Key, text: string)
    requires OptionText(q, k) == Some(text)
    ensures k in Filled(q, 8) && Filled(q, 8)[k] == text
  {
    assert k in ALL_KEYS;
  }

  lemma FilledOnTheWire(q: Query)
    ensures OnTheWire(q, Filled(q, 8))
  {
    var p := Filled(q, 8);
    forall name, text | Sends(q, name, text)
      ensures exists k: Key :: k in p && KeyText(k) == name && p[k] == text
    {
      var k := KeyNamed(q, name, text);
      SentUnderKey(q, k, text);
    }
  }

  lemma KeyNamed(q: Query, name: string, text: string) returns (k: Key)
    requires Sends(q, name, text)
    ensures KeyText(k) == name && OptionText(q, k) == Some(text)
  {
    if name == "$select" { k := Select; }
    else if name == "$filter" { k := FilterBy; }
    else if name == "$expand" { k := Expand; }
    else if name == "$orderby" { k := OrderBy; }
    else if name == "$top" { k := Top; }
    else if name == "$skip" { k := Skip; }
    else if name == "$count" { k := Count; }
    else { k := CrossCompany; }
  }

  /** Sets one option when the query has it. */
  method Put(params: Params, ghost q: Query, key: Key, text: Option<string>) returns (r: Params)
    requires params == Filled(q, Rank(key)) && text == OptionText(q, key)
    ensures r == Filled(q, Rank(key) + 1)
  {
    forall k: Key | Rank(k) == Rank(key)
      ensures k == key
    {
    }
    assert key in ALL_KEYS;
    r := if text.Some? then params[key := text.value] else params;
  }

  /** The part of `to_params` that writes $select, $filter, $expand and $orderby. */
  method PutNames(q: Query) returns (r: Result<Params, QueryError>)
    ensures r == if NamesAccepted(q) then Ok(Filled(q, 4)) else Err(BadIdentifier)
  {
    var params: Params := map[];
    if !AllIdentifiers(q.select) { return Err(BadIdentifier); }
    params := Put(params, q, Select, NamesText(q.select));
    params := Put(params, q, FilterBy, if q.filter == Some("") then None else q.filter);
    if !AllIdentifiers(q.expand) { return Err(BadIdentifier); }
    params := Put(params, q, Expand, NamesText(q.expand));
    if !AllIdentifiers(q.orderby) { return Err(BadIdentifier); }
    params := Put(params, q, OrderBy, NamesText(q.orderby));
    return Ok(params);
  }

  method PutTop(params: Params, q: Query) returns (r: Result<Params, QueryError>)
    requires params == Filled(q, 4)
    ensures r == if TopInRange(q) then Ok(Filled(q, 5)) else Err(BadTop)
  {
    if q.top.Some? && !(1 <= q.top.value <= 1000) { return Err(BadTop); }
    var filled := Put(params, q, Top, NumberText(q.top));
    return Ok(filled);
  }

  /** The part of `to_params` that writes $top and $skip. */
  method PutPaging(params: Params, q: Query) returns (r: Result<Params, QueryError>)
    requires params == Filled(q, 4)
    ensures r == if !TopInRange(q) then Err(BadTop) else if !SkipInRange(q) then Err(BadSkip) else Ok(Filled(q, 6))
  {
    r := PutTop(params, q);
    if r.Err? { return; }
    if q.skip.Some? && q.skip.value < 0 { return Err(BadSkip); }
    var filled := Put(r.value, q, Skip, NumberText(q.skip));
    return Ok(filled);
  }

  /** The part of `to_params` that writes $count and cross-company. */
  method PutFlags(params: Params, q: Query) returns (r: Params)
    requires params == Filled(q, 6)
    ensures r == Filled(q, 8)
  {
    r := Put(params, q, Count, FlagText(q.count));
    r := Put(r, q, CrossCompany, FlagText(q.crossCompany));
  }

  /** What the filled parameters of a query promise. */
  lemma FilledReadsBack(q: Query)
    ensures Accepted(q) ==> Decode(Filled(q, 8)) == Meaning(q)
  {
    if Accepted(q) {
      ParamsReadBack(q);
    }
  }

  /** Accepts exactly the admissible queries, and the parameters read back as the query that was given. */
  method ToParams(q: Query) returns (r: Result<Params, QueryError>)
    ensures r.Ok? <==>
      && (forall name :: name in q.select || name in q.expand || name in q.orderby ==> IsIdentifier(name))
      && (q.top.Some? ==> 1 <= q.top.value <= 1000) && (q.skip.Some? ==> 0 <= q.skip.value)
    ensures r.Ok? ==> Decode(r.value) == Meaning(q) && OnTheWire(q, r.value)
    ensures r.Err? ==>
      if exists name :: (name in q.select || name in q.expand || name in q.orderby) && !IsIdentifier(name) then
        r.error == BadIdentifier
      else if q.top.Some? && (q.top.value < 1 || q.top.value > 1000) then r.error == BadTop
      else r.error == BadSkip
  {
    FilledReadsBack(q);
    FilledOnTheWire(q);
    r := PutNames(q);
    if r.Err? { return; }
    r := PutPaging(r.value, q);
    if r.Err? { return; }
    var params := PutFlags(r.value, q);
    return Ok(params);
  }

  /** `dict.fromkeys(xs)`: the first occurrence of every element. */
  function FirstOccurrences(xs: seq<string>): seq<string> {
    if xs == [] then []
    else
      var earlier := FirstOccurrences(xs[..|xs| - 1]);
      var last := xs[|xs| - 1];
      if last in earlier then earlier else earlier + [last]
  }

  function FirstIndex(xs: seq<string>, x: string): (i: nat)
    requires x in xs
    ensures i < |xs| && xs[i] == x && x !in xs[..i]
  {
    if xs[0] == x then 0 else 1 + FirstIndex(xs[1..], x)
  }

  lemma {:induction false} FirstIndexIsLeast(xs: seq<string>, x: string, i: nat)
    requires i < |xs| && xs[i] == x && x !in xs[..i]
    ensures FirstIndex(xs, x) == i
  {
    if i > 0 {
      assert xs[0] in xs[..i];
      assert forall y :: y in xs[1..][..i - 1] ==> y in xs[..i];
      FirstIndexIsLeast(xs[1..], x, i - 1);
    }
  }

  lemma FirstIndexInPrefix(xs: seq<string>, x: string, last: string)
    requires x in xs
    ensures FirstIndex(xs + [last], x) == FirstIndex(xs, x)
  {
    var i := FirstIndex(xs, x);
    assert (xs + [last])[..i] == xs[..i];
    FirstIndexIsLeast(xs + [last], x, i);
  }

  ghost predicate InFirstOrder(xs: seq<string>, d: seq<string>) {
    && (forall x :: x in d <==> x in xs)
    && (forall i, j :: 0 <= i < j < |d| ==> FirstIndex(xs, d[i]) < FirstIndex(xs, d[j]))
  }

  lemma OrderGrows(xs: seq<string>, d: seq<string>, x: string)
    requires InFirstOrder(xs, d)
    ensures InFirstOrder(xs + [x], if x in d then d else d + [x])
  {
    var ys := xs + [x];
    var e := if x in d then d else d + [x];
    forall i, j | 0 <= i < j < |e|
      ensures FirstIndex(ys, e[i]) < FirstIndex(ys, e[j])
    {
      assert e[i] == d[i] && d[i] in xs;
      FirstIndexInPrefix(xs, e[i], x);
      if j < |d| {
        assert e[j] == d[j] && d[j] in xs;
        FirstIndexInPrefix(xs, e[j], x);
      } else {
        assert ys[..|xs|] == xs;
        FirstIndexIsLeast(ys, x, |xs|);
      }
    }
  }

  /** Deduplication keeps exactly the elements, in the order in which each one first appears. */
  lemma {:induction false} FirstOccurrencesInOrder(xs: seq<string>)
    ensures InFirstOrder(xs, FirstOccurrences(xs))
  {
    if xs != [] {
      var front, last := xs[..|xs| - 1], xs[|xs| - 1];
      assert xs == front + [last];
      FirstOccurrencesInOrder(front);
      OrderGrows(front, FirstOccurrences(front), last);
    }
  }
}
