/**
  The configuration tool of `apply_d365_mapping.py`: every item is validated against the metadata,
  then all of them are written in one transaction by a session that does not flush before a query.
*/
module ApplyMapping {
  import opened Wrappers
  import opened PyJson
  import opened ODataQuery
  import opened Metadata

  /** A member of a configuration item; `text` is what `str()` gives for a nested object. */
  datatype Member = Scalar(v: Json) | Table(members: map<string, Json>, text: string)

  /** The members of an item that are columns of the table. */
  datatype Attribute =
    | EntityName | PersonnelNumberField | CompanyField | EmailField | PositionField
    | DepartmentField | ManagerField | FieldMapping | Enabled

  /** `extra` holds the members under any other name than the columns and "mapping_key". */
  datatype Item = Item(mappingKey: Option<Member>, attributes: map<Attribute, Member>, extra: map<string, Member>)

  datatype Model = Model(
    key: string, attributes: map<Attribute, Member>, confirmedAt: Option<int>, environment: Option<string>)

  datatype Exit = Code(n: nat) | Crash

  function MemberText(m: Member): string {
    if m.Scalar? then PyStr(m.v) else m.text
  }

  predicate Truthy(m: Member) {
    match m
    case Table(members, _) => members != map[]
    case Scalar(Null) => false
    case Scalar(Bool(b)) => b
    case Scalar(Int(n)) => n != 0
    case Scalar(Float(text)) => text != "0.0" && text != "-0.0"
    case Scalar(Str(s)) => s != ""
    case Scalar(Nested(text)) => text != "[]" && text != "{}"
  }

  // Validation.

  /** The properties of every entity set; of two sets with one name the later counts. */
  function EntityProperties(ds: seq<Description>): map<string, set<string>> {
    if ds == [] then map[]
    else
      var d := ds[|ds| - 1];
      EntityProperties(ds[..|ds| - 1])[d.entitySet := set p | p in d.properties]
  }

  /** Names that end in "_field". */
  predicate IsFieldKey(key: string) {
    |key| >= 6 && key[|key| - 6..] == "_field"
  }

  predicate IsFieldAttribute(a: Attribute) {
    a != EntityName && a != FieldMapping && a != Enabled
  }

  function ConfiguredFields(item: Item): set<string> {
    (set a | a in item.attributes && IsFieldAttribute(a) && Truthy(item.attributes[a]) :: MemberText(item.attributes[a])) +
    (set key | key in item.extra && IsFieldKey(key) && Truthy(item.extra[key]) :: MemberText(item.extra[key])) +
    if FieldMapping in item.attributes && item.attributes[FieldMapping].Table? then
      set key | key in item.attributes[FieldMapping].members :: PyStr(item.attributes[FieldMapping].members[key])
    else {}
  }

  datatype Verdict = Valid | Invalid | Broken

  /** Invalid is a ValueError or KeyError the tool reports; Broken is an AttributeError it does not catch. */
  function Check(item: Item, entities: map<string, set<string>>): Verdict {
    if EntityName !in item.attributes then Invalid
    else
      var name := MemberText(item.attributes[EntityName]);
      if !IsIdentifier(name) || name !in entities then Invalid
      else if FieldMapping in item.attributes && !item.attributes[FieldMapping].Table? then Broken
      else if ConfiguredFields(item) <= entities[name] then Valid
      else Invalid
  }

  /** The verdict on the first item that is not valid. */
  function CheckAll(items: seq<Item>, entities: map<string, set<string>>): Verdict {
    if items == [] then Valid
    else if Check(items[0], entities) != Valid then Check(items[0], entities)
    else CheckAll(items[1..], entities)
  }

  lemma {:induction false} CheckAllValid(items: seq<Item>, entities: map<string, set<string>>)
    ensures CheckAll(items, entities) == Valid <==> forall item :: item in items ==> Check(item, entities) == Valid
  {
    if items != [] {
      CheckAllValid(items[1..], entities);
      assert items == [items[0]] + items[1..];
    }
  }

  // The write.

  predicate HasKey(item: Item) {
    item.mappingKey.Some?
  }

  function Key(item: Item): string
    requires HasKey(item)
  {
    MemberText(item.mappingKey.value)
  }

  function Updated(m: Model, item: Item, now: int, environment: string): Model {
    Model(m.key, m.attributes + item.attributes, Some(now), Some(environment))
  }

  /** A new row before any listed attribute is set. */
  function Fresh(key: string, entityName: string): Model {
    Model(key, map[EntityName := Scalar(Str(entityName))], None, None)
  }

  /** What a column holds; an attribute that was never set has its column default. */
  function Column(m: Model, a: Attribute): Member {
    if a in m.attributes then m.attributes[a]
    else if a == FieldMapping then Table(map[], "{}")
    else if a == Enabled then Scalar(Bool(false))
    else Scalar(Null)
  }

  function Position(rows: seq<Model>, key: string): (p: Option<nat>)
    ensures p.Some? ==> p.value < |rows| && rows[p.value].key == key
    ensures p.None? ==> forall i :: 0 <= i < |rows| ==> rows[i].key != key
  {
    if rows == [] then None
    else if rows[|rows| - 1].key == key then Some(|rows| - 1)
    else Position(rows[..|rows| - 1], key)
  }

  predicate Distinct(keys: seq<string>) {
    forall i, j :: 0 <= i < j < |keys| ==> keys[i] != keys[j]
  }

  function Keys(rows: seq<Model>): (keys: seq<string>)
    ensures |keys| == |rows|
  {
    seq(|rows|, i requires 0 <= i < |rows| => rows[i].key)
  }

  predicate Writable(items: seq<Item>) {
    forall item :: item in items ==> HasKey(item) && EntityName in item.attributes
  }

  /** The session after the items: the loaded rows with their changes, and the rows to insert. */
  datatype Session = Session(loaded: seq<Model>, added: seq<Model>)

  function Stage(rows: seq<Model>, items: seq<Item>, clock: nat -> int, environment: string): (s: Session)
    requires Writable(items)
    ensures |s.loaded| == |rows|
  {
    if items == [] then Session(rows, [])
    else
      var n := |items| - 1;
      StageItem(rows, Stage(rows, items[..n], clock, environment), items[n], clock(n), environment)
  }

  /** One item; the query sees only the committed rows, because nothing has been flushed. */
  function StageItem(rows: seq<Model>, s: Session, item: Item, now: int, environment: string): (r: Session)
    requires HasKey(item) && EntityName in item.attributes && |s.loaded| == |rows|
    ensures |r.loaded| == |rows|
  {
    var p := Position(rows, Key(item));
    if p.Some? then
      s.(loaded := s.loaded[p.value := Updated(s.loaded[p.value], item, now, environment)])
    else
      s.(added := s.added + [Updated(Fresh(Key(item), MemberText(item.attributes[EntityName])), item, now, environment)])
  }

  /** The commit: `mapping_key` is unique, and `columns` says which rows satisfy the other constraints. */
  predicate Commits(s: Session, columns: Model -> bool) {
    Distinct(Keys(s.loaded + s.added)) && forall m :: m in s.loaded + s.added ==> columns(m)
  }

  /** The exit code and the table after a run on a loaded configuration whose environment matched or not. */
  function Outcome(rows: seq<Model>, items: seq<Item>, environmentMatches: bool, environment: string,
                   metadata: seq<Description>, apply: bool, clock: nat -> int, columns: Model -> bool): (Exit, seq<Model>) {
    var verdict := CheckAll(items, EntityProperties(metadata));
    CheckAllValid(items, EntityProperties(metadata));
    if !environmentMatches || verdict.Invalid? then (Code(1), rows)
    else if verdict.Broken? then (Crash, rows)
    else if !apply then (Code(0), rows)
    else if exists item :: item in items && !HasKey(item) then (Code(1), rows)
    else
      var s := Stage(rows, items, clock, environment);
      if Commits(s, columns) then (Code(0), s.loaded + s.added) else (Crash, rows)
  }

  class MappingTable {
    var rows: seq<Model>

    constructor ()
      ensures rows == []
    {
      rows := [];
    }

    /** The validation loop. */
    method Validate(items: seq<Item>, entities: map<string, set<string>>) returns (v: Verdict)
      ensures v == CheckAll(items, entities)
    {
      assert items[0..] == items;
      for i := 0 to |items|
        invariant CheckAll(items, entities) == CheckAll(items[i..], entities)
      {
        v := Check(items[i], entities);
        assert items[i..][1..] == items[i + 1..];
        if v != Valid {
          return;
        }
      }
      return Valid;
    }

    /** The write loop, before the commit; None is the KeyError for an item without a key. */
    method StageAll(items: seq<Item>, environment: string, clock: nat -> int) returns (staged: Option<Session>)
      requires forall item :: item in items ==> EntityName in item.attributes
      ensures staged.Some? <==> forall item :: item in items ==> HasKey(item)
      ensures staged.Some? ==> staged.value == Stage(rows, items, clock, environment)
    {
      var session := Session(rows, []);
      for n := 0 to |items|
        invariant Writable(items[..n])
        invariant session == Stage(rows, items[..n], clock, environment)
      {
        var item := items[n];
        assert item in items;
        if !HasKey(item) {
          return None;
        }
        assert items[..n + 1][..n] == items[..n];
        assert Stage(rows, items[..n + 1], clock, environment) == StageItem(rows, session, item, clock(n), environment);
        var p := Position(rows, Key(item));
        if p.Some? {
          session := session.(loaded :=
            session.loaded[p.value := Updated(session.loaded[p.value], item, clock(n), environment)]);
        } else {
          var model := Fresh(Key(item), MemberText(item.attributes[EntityName]));
          session := session.(added := session.added + [Updated(model, item, clock(n), environment)]);
        }
      }
      assert items[..|items|] == items;
      return Some(session);
    }

    /** The tool's `run`. */
    method Run(items: seq<Item>, environmentMatches: bool, environment: string, metadata: seq<Description>,
               apply: bool, clock: nat -> int, columns: Model -> bool) returns (exit: Exit)
      modifies this
      ensures (exit, rows) == Outcome(old(rows), items, environmentMatches, environment, metadata, apply, clock, columns)
    {
      if !environmentMatches {
        return Code(1);
      }
      var entities := EntityProperties(metadata);
      var verdict := Validate(items, entities);
      CheckAllValid(items, entities);
      if verdict.Invalid? {
        return Code(1);
      }
      if verdict.Broken? {
        return Crash;
      }
      if !apply {
        return Code(0);
      }
      var staged := StageAll(items, environment, clock);
      if staged.None? {
        return Code(1);
      }
      if !Commits(staged.value, columns) {
        return Crash;
      }
      rows := staged.value.loaded + staged.value.added;
      return Code(0);
    }
  }

  /** The table changes only when every item is valid, the run applies, and the commit is accepted. */
  lemma ChangesOnlyWhenValid(rows: seq<Model>, items: seq<Item>, environmentMatches: bool, environment: string,
                             metadata: seq<Description>, apply: bool, clock: nat -> int, columns: Model -> bool)
    requires Distinct(Keys(rows))
    ensures
      var (exit, result) := Outcome(rows, items, environmentMatches, environment, metadata, apply, clock, columns);
      && (result != rows ==> exit == Code(0))
      && (exit == Code(0) && apply ==>
        && environmentMatches && CheckAll(items, EntityProperties(metadata)) == Valid
        && Writable(items) && Written(rows, items, result))
      && (exit != Code(0) || !apply ==> result == rows)
  {
    CheckAllValid(items, EntityProperties(metadata));
    var (exit, result) := Outcome(rows, items, environmentMatches, environment, metadata, apply, clock, columns);
    if exit == Code(0) && apply {
      WriteEffect(rows, items, clock, environment, columns);
    }
  }

  // What a run does to the table.

  /** Everything the items list for a key, a later item overriding an earlier one. */
  function Overlay(items: seq<Item>, key: string): map<Attribute, Member>
    requires Writable(items)
  {
    if items == [] then map[]
    else
      var n := |items| - 1;
      var earlier := Overlay(items[..n], key);
      if Key(items[n]) == key then earlier + items[n].attributes else earlier
  }

  /** `item` is the last one that lists attribute `a` for `key`. */
  predicate LastLister(items: seq<Item>, key: string, a: Attribute, i: int)
    requires Writable(items)
  {
    && 0 <= i < |items| && Key(items[i]) == key && a in items[i].attributes
    && forall j :: i < j < |items| && Key(items[j]) == key ==> a !in items[j].attributes
  }

  lemma ListerStaysLast(items: seq<Item>, key: string, a: Attribute, i: int)
    requires items != [] && Writable(items) && LastLister(items[..|items| - 1], key, a, i)
    requires Key(items[|items| - 1]) == key ==> a !in items[|items| - 1].attributes
    ensures LastLister(items, key, a, i) && items[i] == items[..|items| - 1][i]
  {
    var front := items[..|items| - 1];
    assert forall j :: 0 <= j < |front| ==> items[j] == front[j];
  }

  predicate NeverListed(items: seq<Item>, key: string, a: Attribute)
    requires Writable(items)
  {
    forall item :: item in items && Key(item) == key ==> a !in item.attributes
  }

  /** The overlay holds for each attribute what the last item listing it says. */
  lemma {:induction false} OverlayIsLastListed(items: seq<Item>, key: string, a: Attribute)
    requires Writable(items)
    ensures a in Overlay(items, key) ==>
      exists i :: LastLister(items, key, a, i) && Overlay(items, key)[a] == items[i].attributes[a]
    ensures a !in Overlay(items, key) ==> NeverListed(items, key, a)
  {
    if items != [] {
      var n := |items| - 1;
      var front := items[..n];
      OverlayIsLastListed(front, key, a);
      if Key(items[n]) == key && a in items[n].attributes {
        assert LastLister(items, key, a, n);
      } else if a in Overlay(front, key) {
        var i :| LastLister(front, key, a, i) && Overlay(front, key)[a] == front[i].attributes[a];
        ListerStaysLast(items, key, a, i);
      } else {
        assert items == front + [items[n]];
      }
    }
  }

  /** The keys to insert, one for each item whose key is not in the table. */
  function AbsentKeys(rows: seq<Model>, items: seq<Item>): seq<string>
    requires Writable(items)
  {
    if items == [] then []
    else
      var n := |items| - 1;
      var earlier := AbsentKeys(rows, items[..n]);
      if Position(rows, Key(items[n])).None? then earlier + [Key(items[n])] else earlier
  }

  lemma {:induction false} AbsentKeysAreItemKeys(rows: seq<Model>, items: seq<Item>)
    requires Writable(items)
    ensures forall k :: k in AbsentKeys(rows, items) <==>
      Position(rows, k).None? && exists item :: item in items && Key(item) == k
  {
    if items != [] {
      var n := |items| - 1;
      AbsentKeysAreItemKeys(rows, items[..n]);
      assert items == items[..n] + [items[n]];
    }
  }

  lemma {:induction false} OverlayOfUnlisted(items: seq<Item>, key: string)
    requires Writable(items) && forall item :: item in items ==> Key(item) != key
    ensures Overlay(items, key) == map[]
  {
    if items != [] {
      OverlayOfUnlisted(items[..|items| - 1], key);
    }
  }

  /** One row after all items, seen on its own. */
  function Amended(m: Model, items: seq<Item>, clock: nat -> int, environment: string): Model
    requires Writable(items)
  {
    if items == [] then m
    else
      var n := |items| - 1;
      var before := Amended(m, items[..n], clock, environment);
      if Key(items[n]) == m.key then Updated(before, items[n], clock(n), environment) else before
  }

  lemma {:induction false} AmendedAttributes(m: Model, items: seq<Item>, clock: nat -> int, environment: string)
    requires Writable(items)
    ensures
      var r := Amended(m, items, clock, environment);
      && r.key == m.key
      && r.attributes == m.attributes + Overlay(items, m.key)
      && ((forall item :: item in items ==> Key(item) != m.key) ==> r == m)
  {
    if items == [] {
      assert m.attributes + map[] == m.attributes;
    } else {
      var n := |items| - 1;
      AmendedAttributes(m, items[..n], clock, environment);
      assert items[n] in items && forall item :: item in items[..n] ==> item in items;
    }
  }

  lemma PositionUnique(rows: seq<Model>, key: string, i: nat)
    requires Distinct(Keys(rows)) && i < |rows|
    ensures rows[i].key == key <==> Position(rows, key) == Some(i)
  {
    var p := Position(rows, key);
    assert Keys(rows)[i] == rows[i].key;
    assert p.Some? ==> Keys(rows)[p.value] == key;
  }

  lemma {:induction false} StagedLoaded(rows: seq<Model>, items: seq<Item>, clock: nat -> int, environment: string, i: nat)
    requires Writable(items) && Distinct(Keys(rows)) && i < |rows|
    ensures Stage(rows, items, clock, environment).loaded[i] == Amended(rows[i], items, clock, environment)
  {
    if items != [] {
      var n := |items| - 1;
      StagedLoaded(rows, items[..n], clock, environment, i);
      PositionUnique(rows, Key(items[n]), i);
      AmendedAttributes(rows[i], items[..n], clock, environment);
    }
  }

  lemma LoadedRows(rows: seq<Model>, items: seq<Item>, clock: nat -> int, environment: string)
    requires Writable(items) && Distinct(Keys(rows))
    ensures
      var loaded := Stage(rows, items, clock, environment).loaded;
      && Keys(loaded) == Keys(rows)
      && forall i :: 0 <= i < |rows| ==>
        && loaded[i].key == rows[i].key
        && loaded[i].attributes == rows[i].attributes + Overlay(items, rows[i].key)
        && ((forall item :: item in items ==> Key(item) != rows[i].key) ==> loaded[i] == rows[i])
  {
    var loaded := Stage(rows, items, clock, environment).loaded;
    forall i | 0 <= i < |rows|
      ensures loaded[i].key == rows[i].key
      ensures loaded[i].attributes == rows[i].attributes + Overlay(items, rows[i].key)
      ensures (forall item :: item in items ==> Key(item) != rows[i].key) ==> loaded[i] == rows[i]
    {
      StagedLoaded(rows, items, clock, environment, i);
      AmendedAttributes(rows[i], items, clock, environment);
    }
  }

  function NewAttributes(items: seq<Item>, item: Item): map<Attribute, Member>
    requires Writable(items) && HasKey(item) && EntityName in item.attributes
  {
    Fresh(Key(item), MemberText(item.attributes[EntityName])).attributes + Overlay(items, Key(item))
  }

  /** A new row: the column defaults of one of its items, with everything listed for its key. */
  predicate Created(items: seq<Item>, m: Model)
    requires Writable(items)
  {
    exists item :: item in items && Key(item) == m.key && m.attributes == NewAttributes(items, item)
  }

  lemma {:induction false} AddedKeys(rows: seq<Model>, items: seq<Item>, clock: nat -> int, environment: string)
    requires Writable(items)
    ensures Keys(Stage(rows, items, clock, environment).added) == AbsentKeys(rows, items)
  {
    if items != [] {
      AddedKeys(rows, items[..|items| - 1], clock, environment);
    }
  }

  /** An item that adds nothing to the overlay of a row leaves it created. */
  lemma StillCreated(items: seq<Item>, m: Model)
    requires items != [] && Writable(items) && Created(items[..|items| - 1], m)
    requires Key(items[|items| - 1]) != m.key
    ensures Created(items, m)
  {
    var front := items[..|items| - 1];
    var it :| it in front && Key(it) == m.key && m.attributes == NewAttributes(front, it);
    assert it in items && NewAttributes(items, it) == NewAttributes(front, it);
  }

  lemma NewlyCreated(items: seq<Item>, now: int, environment: string)
    requires items != [] && Writable(items)
    requires forall item :: item in items[..|items| - 1] ==> Key(item) != Key(items[|items| - 1])
    ensures var item := items[|items| - 1];
      Created(items, Updated(Fresh(Key(item), MemberText(item.attributes[EntityName])), item, now, environment))
  {
    var item := items[|items| - 1];
    OverlayOfUnlisted(items[..|items| - 1], Key(item));
    assert Overlay(items, Key(item)) == item.attributes;
    assert item in items;
  }

  lemma DistinctPrefix(keys: seq<string>, k: string)
    requires Distinct(keys + [k])
    ensures Distinct(keys) && k !in keys
  {
    assert keys == (keys + [k])[..|keys|];
    forall i | 0 <= i < |keys|
      ensures keys[i] != k
    {
      assert (keys + [k])[i] != (keys + [k])[|keys|];
    }
  }

  lemma {:induction false} AddedRows(rows: seq<Model>, items: seq<Item>, clock: nat -> int, environment: string)
    requires Writable(items) && Distinct(AbsentKeys(rows, items))
    ensures forall m :: m in Stage(rows, items, clock, environment).added ==> Created(items, m)
  {
    if items != [] {
      var n := |items| - 1;
      var front := items[..n];
      var k := Key(items[n]);
      var before := Stage(rows, front, clock, environment);
      var absent := AbsentKeys(rows, front);
      if Position(rows, k).None? {
        DistinctPrefix(absent, k);
        AbsentKeysAreItemKeys(rows, front);
        NewlyCreated(items, clock(n), environment);
      }
      AddedRows(rows, front, clock, environment);
      AddedKeys(rows, front, clock, environment);
      AbsentKeysAreItemKeys(rows, front);
      forall m | m in before.added
        ensures Created(items, m)
      {
        var j :| 0 <= j < |before.added| && before.added[j] == m;
        assert Keys(before.added)[j] == m.key && m.key in absent;
        StillCreated(items, m);
      }
    }
  }

  lemma DistinctConcat(a: seq<string>, b: seq<string>)
    requires Distinct(a) && forall k :: k in b ==> k !in a
    ensures Distinct(a + b) <==> Distinct(b)
  {
    var all := a + b;
    if Distinct(b) {
      forall i, j | 0 <= i < j < |all|
        ensures all[i] != all[j]
      {
        if i < |a| <= j {
          assert all[j] in b && all[i] in a;
        }
      }
    }
    if Distinct(all) {
      forall i, j | 0 <= i < j < |b|
        ensures b[i] != b[j]
      {
        assert all[|a| + i] != all[|a| + j];
      }
    }
  }

  lemma StagedKeys(rows: seq<Model>, items: seq<Item>, clock: nat -> int, environment: string)
    requires Writable(items) && Distinct(Keys(rows))
    ensures
      var s := Stage(rows, items, clock, environment);
      && Keys(s.loaded + s.added) == Keys(rows) + AbsentKeys(rows, items)
      && (Distinct(Keys(s.loaded + s.added)) <==> Distinct(AbsentKeys(rows, items)))
  {
    var s := Stage(rows, items, clock, environment);
    LoadedRows(rows, items, clock, environment);
    AddedKeys(rows, items, clock, environment);
    var absent := AbsentKeys(rows, items);
    assert Keys(s.loaded + s.added) == Keys(s.loaded) + Keys(s.added);
    AbsentKeysAreItemKeys(rows, items);
    forall k | k in absent
      ensures k !in Keys(rows)
    {
      assert Position(rows, k).None?;
    }
    DistinctConcat(Keys(rows), absent);
  }

  /** The unique key can reject the commit, and does exactly when two items share a key the table does not have. */
  lemma KeysCollideIff(rows: seq<Model>, items: seq<Item>, clock: nat -> int, environment: string)
    requires Writable(items) && Distinct(Keys(rows))
    ensures
      var s := Stage(rows, items, clock, environment);
      Distinct(Keys(s.loaded + s.added)) <==> SharedKeysPresent(rows, items)
  {
    StagedKeys(rows, items, clock, environment);
    AbsentDistinctIff(rows, items);
  }

  /** A configuration that lists one new key twice is rejected as a whole. */
  lemma RepeatedNewKeyFails(first: Item, second: Item, clock: nat -> int, environment: string, columns: Model -> bool)
    requires Writable([first, second]) && Key(first) == Key(second)
    ensures !Commits(Stage([], [first, second], clock, environment), columns)
  {
    var items := [first, second];
    assert Key(items[0]) == Key(items[1]) && Position([], Key(items[0])).None?;
    KeysCollideIff([], items, clock, environment);
  }

  const WORKERS := [Description("Workers", "Data.Worker", ["PersonnelNumber"])]

  const LEAVE_ITEM := Item(Some(Scalar(Str("leave_balance"))),
    map[EntityName := Scalar(Str("Workers")), PersonnelNumberField := Scalar(Str("PersonnelNumber"))], map[])

  lemma LeaveItemIsValid()
    ensures Check(LEAVE_ITEM, EntityProperties(WORKERS)) == Valid
  {
    var properties := set p | p in ["PersonnelNumber"];
    assert "PersonnelNumber" in properties by { assert "PersonnelNumber" in ["PersonnelNumber"]; }
    assert EntityProperties(WORKERS) == map["Workers" := properties] by {
      assert WORKERS[..0] == [];
      assert WORKERS[0].properties == ["PersonnelNumber"];
    }
    assert ConfiguredFields(LEAVE_ITEM) <= properties;
  }

  /** Validation does not see it: two items that are valid against the metadata, in an empty table. */
  lemma ValidConfigurationFails(clock: nat -> int, environment: string, columns: Model -> bool)
    ensures CheckAll([LEAVE_ITEM, LEAVE_ITEM], EntityProperties(WORKERS)) == Valid
    ensures Outcome([], [LEAVE_ITEM, LEAVE_ITEM], true, environment, WORKERS, true, clock, columns) == (Crash, [])
  {
    var items := [LEAVE_ITEM, LEAVE_ITEM];
    LeaveItemIsValid();
    CheckAllValid(items, EntityProperties(WORKERS));
    assert Writable(items);
    RepeatedNewKeyFails(LEAVE_ITEM, LEAVE_ITEM, clock, environment, columns);
  }

  /** Items that share a key share one the table has. */
  predicate SharedKeysPresent(rows: seq<Model>, items: seq<Item>)
    requires Writable(items)
  {
    forall i, j :: 0 <= i < j < |items| && Key(items[i]) == Key(items[j]) ==> Position(rows, Key(items[i])).Some?
  }

  lemma SharedKeysGrow(rows: seq<Model>, items: seq<Item>)
    requires items != [] && Writable(items)
    ensures
      var n := |items| - 1;
      SharedKeysPresent(rows, items) <==>
        && SharedKeysPresent(rows, items[..n])
        && (Position(rows, Key(items[n])).None? ==> forall item :: item in items[..n] ==> Key(item) != Key(items[n]))
  {
    var n := |items| - 1;
    var front := items[..n];
    assert forall i :: 0 <= i < n ==> front[i] == items[i];
    if SharedKeysPresent(rows, items) {
      forall item | item in front && Key(item) == Key(items[n])
        ensures Position(rows, Key(item)).Some?
      {
        var i :| 0 <= i < n && front[i] == item;
        assert Key(items[i]) == Key(items[n]);
      }
    }
    if SharedKeysPresent(rows, front) &&
      (Position(rows, Key(items[n])).None? ==> forall item :: item in front ==> Key(item) != Key(items[n])) {
      forall i, j | 0 <= i < j < |items| && Key(items[i]) == Key(items[j])
        ensures Position(rows, Key(items[i])).Some?
      {
        assert front[i] in front;
        if j < n { assert Key(front[i]) == Key(front[j]); }
      }
    }
  }

  lemma DistinctAppendIff(keys: seq<string>, k: string)
    ensures Distinct(keys + [k]) <==> Distinct(keys) && k !in keys
  {
    if Distinct(keys + [k]) {
      DistinctPrefix(keys, k);
    }
  }

  lemma {:induction false} AbsentDistinctIff(rows: seq<Model>, items: seq<Item>)
    requires Writable(items)
    ensures Distinct(AbsentKeys(rows, items)) <==> SharedKeysPresent(rows, items)
  {
    if items != [] {
      var n := |items| - 1;
      AbsentDistinctIff(rows, items[..n]);
      AbsentKeysAreItemKeys(rows, items[..n]);
      SharedKeysGrow(rows, items);
      DistinctAppendIff(AbsentKeys(rows, items[..n]), Key(items[n]));
    }
  }

  /** The table after a successful write, row by row. */
  predicate Written(rows: seq<Model>, items: seq<Item>, result: seq<Model>)
    requires Writable(items)
  {
    && |rows| <= |result| && Distinct(Keys(result))
    && (forall i :: 0 <= i < |rows| ==>
      && result[i].key == rows[i].key
      && result[i].attributes == rows[i].attributes + Overlay(items, rows[i].key)
      && ((forall item :: item in items ==> Key(item) != rows[i].key) ==> result[i] == rows[i]))
    && (forall i :: |rows| <= i < |result| ==> Created(items, result[i]))
    && (forall item :: item in items ==> Key(item) in Keys(result))
  }

  lemma WriteEffect(rows: seq<Model>, items: seq<Item>, clock: nat -> int, environment: string, columns: Model -> bool)
    requires Writable(items) && Distinct(Keys(rows))
    requires Commits(Stage(rows, items, clock, environment), columns)
    ensures var s := Stage(rows, items, clock, environment);
            Written(rows, items, s.loaded + s.added)
  {
    var s := Stage(rows, items, clock, environment);
    var result := s.loaded + s.added;
    LoadedRows(rows, items, clock, environment);
    StagedKeys(rows, items, clock, environment);
    AddedRows(rows, items, clock, environment);
    forall i | |rows| <= i < |result|
      ensures Created(items, result[i])
    {
      assert result[i] in s.added;
    }
    forall item | item in items
      ensures Key(item) in Keys(result)
    {
      ItemKeyWritten(rows, items, item);
    }
  }

  lemma ItemKeyWritten(rows: seq<Model>, items: seq<Item>, item: Item)
    requires Writable(items) && item in items
    ensures Key(item) in Keys(rows) + AbsentKeys(rows, items)
  {
    AbsentKeysAreItemKeys(rows, items);
    var p := Position(rows, Key(item));
    if p.Some? {
      assert Keys(rows)[p.value] == Key(item);
    } else {
      assert Key(item) in AbsentKeys(rows, items);
    }
  }

  lemma {:induction false} NothingAbsent(rows: seq<Model>, items: seq<Item>)
    requires Writable(items) && forall item :: item in items ==> Key(item) in Keys(rows)
    ensures AbsentKeys(rows, items) == []
  {
    if items != [] {
      var n := |items| - 1;
      assert items[n] in items && forall item :: item in items[..n] ==> item in items;
      NothingAbsent(rows, items[..n]);
      var i :| 0 <= i < |rows| && Keys(rows)[i] == Key(items[n]);
      assert rows[i].key == Key(items[n]);
    }
  }

  /** A written row already holds everything listed for its key. */
  lemma OverlayAbsorbed(rows: seq<Model>, items: seq<Item>, result: seq<Model>, i: nat)
    requires Writable(items) && Written(rows, items, result) && i < |result|
    ensures result[i].attributes + Overlay(items, result[i].key) == result[i].attributes
  {
    var o := Overlay(items, result[i].key);
    if i >= |rows| {
      assert Created(items, result[i]);
    }
    assert forall a :: a in o ==> a in result[i].attributes && result[i].attributes[a] == o[a];
  }

  /** With distinct keys, each item ends in exactly one row, which agrees with everything the item lists. */
  lemma ItemsAreStored(rows: seq<Model>, items: seq<Item>, result: seq<Model>, n: nat)
    requires Writable(items) && Written(rows, items, result) && n < |items|
    requires forall i, j :: 0 <= i < j < |items| ==> Key(items[i]) != Key(items[j])
    ensures exists i ::
      && 0 <= i < |result| && result[i].key == Key(items[n])
      && (forall j :: 0 <= j < |result| && result[j].key == Key(items[n]) ==> j == i)
      && (forall a :: a in items[n].attributes ==> Column(result[i], a) == items[n].attributes[a])
  {
    var key := Key(items[n]);
    var i :| 0 <= i < |result| && Keys(result)[i] == key;
    assert forall j :: 0 <= j < |result| ==> Keys(result)[j] == result[j].key;
    OverlayAbsorbed(rows, items, result, i);
    forall a | a in items[n].attributes
      ensures Column(result[i], a) == items[n].attributes[a]
    {
      OverlayIsLastListed(items, key, a);
      assert a in Overlay(items, key) by { assert items[n] in items; }
      var k :| LastLister(items, key, a, k) && Overlay(items, key)[a] == items[k].attributes[a];
      assert k == n;
      assert (result[i].attributes + Overlay(items, key))[a] == Overlay(items, key)[a];
    }
  }

  /** Applying the same items to the table they produced changes nothing but timestamps and environment. */
  lemma SecondApplyChangesNothing(rows: seq<Model>, items: seq<Item>, clock: nat -> int, environment: string,
                                  columns: Model -> bool, laterClock: nat -> int, laterEnvironment: string)
    requires Writable(items) && Distinct(Keys(rows))
    requires Commits(Stage(rows, items, clock, environment), columns)
    ensures
      var s := Stage(rows, items, clock, environment);
      var first := s.loaded + s.added;
      var again := Stage(first, items, laterClock, laterEnvironment);
      && again.added == [] && Distinct(Keys(again.loaded + again.added))
      && |again.loaded| == |first|
      && forall i :: 0 <= i < |first| ==>
        again.loaded[i].key == first[i].key && again.loaded[i].attributes == first[i].attributes
  {
    var s := Stage(rows, items, clock, environment);
    var first := s.loaded + s.added;
    WriteEffect(rows, items, clock, environment, columns);
    NothingAbsent(first, items);
    AddedKeys(first, items, laterClock, laterEnvironment);
    StagedKeys(first, items, laterClock, laterEnvironment);
    LoadedRows(first, items, laterClock, laterEnvironment);
    var again := Stage(first, items, laterClock, laterEnvironment);
    assert |again.added| == |Keys(again.added)| == 0;
    forall i | 0 <= i < |first|
      ensures again.loaded[i].key == first[i].key && again.loaded[i].attributes == first[i].attributes
    {
      OverlayAbsorbed(rows, items, first, i);
    }
  }

  /** A valid item names an entity of the metadata, and every field it configures is a property of that entity. */
  lemma ValidItemsUseMetadata(items: seq<Item>, entities: map<string, set<string>>, item: Item)
    requires CheckAll(items, entities) == Valid && item in items
    ensures EntityName in item.attributes && MemberText(item.attributes[EntityName]) in entities
    ensures var available := entities[MemberText(item.attributes[EntityName])];
      && (forall a :: a in item.attributes && IsFieldAttribute(a) && Truthy(item.attributes[a]) ==>
        MemberText(item.attributes[a]) in available)
      && (FieldMapping in item.attributes ==>
        && item.attributes[FieldMapping].Table?
        && forall key :: key in item.attributes[FieldMapping].members ==>
          PyStr(item.attributes[FieldMapping].members[key]) in available)
  {
    CheckAllValid(items, entities);
    assert Check(item, entities) == Valid;
    var available := entities[MemberText(item.attributes[EntityName])];
    forall a | a in item.attributes && IsFieldAttribute(a) && Truthy(item.attributes[a])
      ensures MemberText(item.attributes[a]) in available
    {
      assert MemberText(item.attributes[a]) in ConfiguredFields(item);
    }
    if FieldMapping in item.attributes {
      forall key | key in item.attributes[FieldMapping].members
        ensures PyStr(item.attributes[FieldMapping].members[key]) in available
      {
        assert PyStr(item.attributes[FieldMapping].members[key]) in ConfiguredFields(item);
      }
    }
  }
}
