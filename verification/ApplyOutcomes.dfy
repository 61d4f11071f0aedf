/** How the configuration tool ends and what it writes, said from the items, the metadata and the table. */
module ApplyOutcomes {
  import opened Wrappers
  import opened PyJson
  import opened ODataQuery
  import opened Metadata
  import opened ApplyMapping

  // Validation.

  /** The description that counts for this name: the last one. */
  predicate Describes(ds: seq<Description>, name: string, i: int) {
    0 <= i < |ds| && ds[i].entitySet == name && forall j :: i < j < |ds| ==> ds[j].entitySet != name
  }

  /** The item names an entity of the metadata. */
  predicate NamesEntity(item: Item, ds: seq<Description>, i: int) {
    && EntityName in item.attributes && IsIdentifier(MemberText(item.attributes[EntityName]))
    && Describes(ds, MemberText(item.attributes[EntityName]), i)
  }

  const FIELDS: set<Attribute> :=
    {PersonnelNumberField, CompanyField, EmailField, PositionField, DepartmentField, ManagerField}

  predicate EndsInField(key: string) {
    exists n :: 0 <= n <= |key| && key[n..] == "_field"
  }

  /** Every field the item configures, under any name that ends in "_field" or in its field mapping, is among these. */
  predicate Uses(item: Item, properties: seq<string>) {
    && (forall a :: a in item.attributes && a in FIELDS && Truthy(item.attributes[a]) ==>
      MemberText(item.attributes[a]) in properties)
    && (forall key :: key in item.extra && EndsInField(key) && Truthy(item.extra[key]) ==>
      MemberText(item.extra[key]) in properties)
    && (FieldMapping in item.attributes ==>
      && item.attributes[FieldMapping].Table?
      && forall key :: key in item.attributes[FieldMapping].members ==>
        PyStr(item.attributes[FieldMapping].members[key]) in properties)
  }

  /** The item is valid. */
  predicate Fits(item: Item, ds: seq<Description>) {
    exists i :: 0 <= i < |ds| && NamesEntity(item, ds, i) && Uses(item, ds[i].properties)
  }

  /** Validation of the item meets a field mapping that is no object. */
  predicate Stumbles(item: Item, ds: seq<Description>) {
    && (exists i :: 0 <= i < |ds| && NamesEntity(item, ds, i))
    && FieldMapping in item.attributes && !item.attributes[FieldMapping].Table?
  }

  lemma {:induction false} PropertiesOfLast(ds: seq<Description>, name: string)
    ensures name in EntityProperties(ds) <==> exists i :: 0 <= i < |ds| && Describes(ds, name, i)
    ensures forall i :: Describes(ds, name, i) ==> EntityProperties(ds)[name] == set p | p in ds[i].properties
  {
    if ds != [] {
      var n := |ds| - 1;
      var front := ds[..n];
      PropertiesOfLast(front, name);
      assert forall i :: 0 <= i < n ==> front[i] == ds[i];
      if ds[n].entitySet == name {
        assert Describes(ds, name, n);
      } else {
        assert forall i :: 0 <= i < n ==> (Describes(front, name, i) <==> Describes(ds, name, i));
      }
    }
  }

  lemma SuffixAt(key: string)
    ensures EndsInField(key) <==> IsFieldKey(key)
  {
    if EndsInField(key) {
      var n :| 0 <= n <= |key| && key[n..] == "_field";
      assert |key[n..]| == 6;
    }
    if IsFieldKey(key) {
      assert key[|key| - 6..] == "_field";
    }
  }

  lemma UsesExactly(item: Item, properties: seq<string>)
    requires FieldMapping in item.attributes ==> item.attributes[FieldMapping].Table?
    ensures Uses(item, properties) <==> ConfiguredFields(item) <= set p | p in properties
  {
    var available := set p | p in properties;
    var fields := ConfiguredFields(item);
    forall key: string
      ensures EndsInField(key) <==> IsFieldKey(key)
    {
      SuffixAt(key);
    }
    assert forall a :: a in FIELDS <==> IsFieldAttribute(a);
    if fields <= available {
      FieldsAreUsed(item, properties);
    }
    if Uses(item, properties) {
      forall p | p in fields
        ensures p in available
      {
      }
    }
  }

  lemma FieldsAreUsed(item: Item, properties: seq<string>)
    requires FieldMapping in item.attributes ==> item.attributes[FieldMapping].Table?
    requires ConfiguredFields(item) <= set p | p in properties
    ensures Uses(item, properties)
  {
    var fields := ConfiguredFields(item);
    forall a | a in item.attributes && a in FIELDS && Truthy(item.attributes[a])
      ensures MemberText(item.attributes[a]) in properties
    {
      assert IsFieldAttribute(a) && MemberText(item.attributes[a]) in fields;
    }
    forall key | key in item.extra && EndsInField(key) && Truthy(item.extra[key])
      ensures MemberText(item.extra[key]) in properties
    {
      SuffixAt(key);
      assert MemberText(item.extra[key]) in fields;
    }
    if FieldMapping in item.attributes {
      forall key | key in item.attributes[FieldMapping].members
        ensures PyStr(item.attributes[FieldMapping].members[key]) in properties
      {
        assert PyStr(item.attributes[FieldMapping].members[key]) in fields;
      }
    }
  }

  /** The verdict on one item, from the item and the metadata. */
  lemma CheckExactly(item: Item, ds: seq<Description>)
    ensures Check(item, EntityProperties(ds)) ==
      if Fits(item, ds) then Valid else if Stumbles(item, ds) then Broken else Invalid
  {
    if EntityName in item.attributes {
      var name := MemberText(item.attributes[EntityName]);
      PropertiesOfLast(ds, name);
      if name in EntityProperties(ds) {
        var i :| 0 <= i < |ds| && Describes(ds, name, i);
        assert forall j :: 0 <= j < |ds| && Describes(ds, name, j) ==> j == i;
        if FieldMapping in item.attributes ==> item.attributes[FieldMapping].Table? {
          UsesExactly(item, ds[i].properties);
        }
        assert IsIdentifier(name) ==> NamesEntity(item, ds, i);
      }
    }
  }

  /** The items from k up to n are valid. */
  predicate FitBetween(items: seq<Item>, ds: seq<Description>, k: int, n: int)
    requires 0 <= k && n <= |items|
  {
    forall j :: k <= j < n ==> Fits(items[j], ds)
  }

  /** Item n is the first that is not valid, and validation stumbles over it. */
  predicate StumblesAt(items: seq<Item>, ds: seq<Description>, k: nat, n: nat) {
    k <= n < |items| && FitBetween(items, ds, k, n) && !Fits(items[n], ds) && Stumbles(items[n], ds)
  }

  predicate HasStumble(items: seq<Item>, ds: seq<Description>, k: nat) {
    exists n: nat :: n < |items| && StumblesAt(items, ds, k, n)
  }

  lemma StumbleHead(items: seq<Item>, ds: seq<Description>, k: nat)
    requires k < |items|
    ensures HasStumble(items, ds, k) <==>
      if Fits(items[k], ds) then HasStumble(items, ds, k + 1) else Stumbles(items[k], ds)
  {
    forall n: nat | k < n < |items|
      ensures StumblesAt(items, ds, k, n) <==> Fits(items[k], ds) && StumblesAt(items, ds, k + 1, n)
    {
    }
    assert StumblesAt(items, ds, k, k) <==> !Fits(items[k], ds) && Stumbles(items[k], ds);
    if HasStumble(items, ds, k) {
      var n: nat :| n < |items| && StumblesAt(items, ds, k, n);
      assert n > k ==> StumblesAt(items, ds, k + 1, n);
    }
    if HasStumble(items, ds, k + 1) {
      var n: nat :| n < |items| && StumblesAt(items, ds, k + 1, n);
      assert Fits(items[k], ds) ==> StumblesAt(items, ds, k, n);
    }
  }

  lemma {:induction false} VerdictFrom(items: seq<Item>, ds: seq<Description>, k: nat)
    requires k <= |items|
    ensures CheckAll(items[k..], EntityProperties(ds)) == Valid <==> FitBetween(items, ds, k, |items|)
    ensures CheckAll(items[k..], EntityProperties(ds)) == Broken <==> HasStumble(items, ds, k)
    decreases |items| - k
  {
    if k < |items| {
      assert items[k..][1..] == items[k + 1..] && items[k..][0] == items[k];
      CheckExactly(items[k], ds);
      VerdictFrom(items, ds, k + 1);
      StumbleHead(items, ds, k);
    }
  }

  // The rows that are written.

  /** Item n is the last one for this key. */
  predicate LastFor(items: seq<Item>, key: string, n: int)
    requires Writable(items)
  {
    0 <= n < |items| && Key(items[n]) == key && forall j :: n < j < |items| ==> Key(items[j]) != key
  }

  /** What the items make of an existing row. */
  predicate Amends(row: Model, items: seq<Item>, clock: nat -> int, environment: string, m: Model)
    requires Writable(items)
  {
    && m.key == row.key
    && ((forall n :: 0 <= n < |items| ==> Key(items[n]) != row.key) ==> m == row)
    && (forall n :: 0 <= n < |items| && LastFor(items, row.key, n) ==>
      m.confirmedAt == Some(clock(n)) && m.environment == Some(environment))
    && (forall a: Attribute, n | 0 <= n < |items| && LastLister(items, row.key, a, n) ::
      a in m.attributes && m.attributes[a] == items[n].attributes[a])
    && (forall a: Attribute | NeverListed(items, row.key, a) ::
      (a in m.attributes <==> a in row.attributes) && (a in m.attributes ==> m.attributes[a] == row.attributes[a]))
  }

  /** Item n has a key that the table does not have. */
  predicate IsNew(rows: seq<Model>, items: seq<Item>, n: int)
    requires Writable(items) && 0 <= n < |items|
  {
    forall r :: r in rows ==> r.key != Key(items[n])
  }

  /** The row an item with a new key makes. */
  function NewRow(items: seq<Item>, clock: nat -> int, environment: string, n: nat): Model
    requires Writable(items) && n < |items|
  {
    Model(Key(items[n]), items[n].attributes, Some(clock(n)), Some(environment))
  }

  /** The positions of the items with new keys, in order. */
  predicate NewItems(rows: seq<Model>, items: seq<Item>, news: seq<nat>)
    requires Writable(items)
  {
    && (forall k, l :: 0 <= k < l < |news| ==> news[k] < news[l])
    && (forall k :: 0 <= k < |news| ==> news[k] < |items|)
    && (forall n :: 0 <= n < |items| ==> (n in news <==> IsNew(rows, items, n)))
  }

  /** The rows that items with new keys make, after the first n rows. */
  predicate NewRowsAre(items: seq<Item>, clock: nat -> int, environment: string, news: seq<nat>, result: seq<Model>, n: nat)
    requires Writable(items)
  {
    && |result| == n + |news|
    && forall k :: 0 <= k < |news| ==> news[k] < |items| && result[n + k] == NewRow(items, clock, environment, news[k])
  }

  /** The table the items ask for: each existing row amended, then one row for each item with a new key. */
  ghost predicate IsResult(rows: seq<Model>, items: seq<Item>, clock: nat -> int, environment: string, result: seq<Model>)
    requires Writable(items)
  {
    && |rows| <= |result|
    && (forall i :: 0 <= i < |rows| ==> Amends(rows[i], items, clock, environment, result[i]))
    && exists news :: NewItems(rows, items, news) && NewRowsAre(items, clock, environment, news, result, |rows|)
  }

  lemma {:induction false} AmendedStamp(m: Model, items: seq<Item>, clock: nat -> int, environment: string, n: nat)
    requires Writable(items) && LastFor(items, m.key, n)
    ensures Amended(m, items, clock, environment).confirmedAt == Some(clock(n))
    ensures Amended(m, items, clock, environment).environment == Some(environment)
  {
    var k := |items| - 1;
    AmendedAttributes(m, items[..k], clock, environment);
    if n < k {
      assert LastFor(items[..k], m.key, n);
      AmendedStamp(m, items[..k], clock, environment, n);
    }
  }

  lemma AmendedAmends(row: Model, items: seq<Item>, clock: nat -> int, environment: string)
    requires Writable(items)
    ensures Amends(row, items, clock, environment, Amended(row, items, clock, environment))
  {
    var m := Amended(row, items, clock, environment);
    AmendedAttributes(row, items, clock, environment);
    if forall n :: 0 <= n < |items| ==> Key(items[n]) != row.key {
      assert forall item :: item in items ==> Key(item) != row.key;
    }
    forall n: nat | n < |items| && LastFor(items, row.key, n)
      ensures m.confirmedAt == Some(clock(n)) && m.environment == Some(environment)
    {
      AmendedStamp(row, items, clock, environment, n);
    }
    forall a: Attribute
      ensures forall n :: 0 <= n < |items| && LastLister(items, row.key, a, n) ==>
        a in m.attributes && m.attributes[a] == items[n].attributes[a]
      ensures NeverListed(items, row.key, a) ==>
        (a in m.attributes <==> a in row.attributes) && (a in m.attributes ==> m.attributes[a] == row.attributes[a])
    {
      AmendedAttribute(row, items, clock, environment, a);
    }
  }

  lemma AmendedAttribute(row: Model, items: seq<Item>, clock: nat -> int, environment: string, a: Attribute)
    requires Writable(items)
    ensures
      var m := Amended(row, items, clock, environment);
      && (forall n :: 0 <= n < |items| && LastLister(items, row.key, a, n) ==>
        a in m.attributes && m.attributes[a] == items[n].attributes[a])
      && (NeverListed(items, row.key, a) ==>
        (a in m.attributes <==> a in row.attributes) && (a in m.attributes ==> m.attributes[a] == row.attributes[a]))
  {
    AmendedAttributes(row, items, clock, environment);
    OverlayIsLastListed(items, row.key, a);
    if a in Overlay(items, row.key) {
      var k :| LastLister(items, row.key, a, k) && Overlay(items, row.key)[a] == items[k].attributes[a];
      forall n | 0 <= n < |items| && LastLister(items, row.key, a, n)
        ensures n == k
      {
      }
      assert items[k] in items;
    } else {
      forall n | 0 <= n < |items|
        ensures !LastLister(items, row.key, a, n)
      {
        assert items[n] in items;
      }
    }
  }

  lemma NewByPosition(rows: seq<Model>, items: seq<Item>, n: nat)
    requires Writable(items) && n < |items|
    ensures IsNew(rows, items, n) <==> Position(rows, Key(items[n])).None?
  {
    var p := Position(rows, Key(items[n]));
    if p.Some? {
      assert rows[p.value] in rows;
    }
  }

  lemma NewsGrow(rows: seq<Model>, items: seq<Item>, news: seq<nat>)
    requires items != [] && Writable(items) && NewItems(rows, items[..|items| - 1], news)
    ensures NewItems(rows, items, if IsNew(rows, items, |items| - 1) then news + [|items| - 1] else news)
  {
    var n := |items| - 1;
    var front := items[..n];
    var grown := if IsNew(rows, items, n) then news + [n] else news;
    forall k | 0 <= k < |items|
      ensures k in grown <==> IsNew(rows, items, k)
    {
      if k < n {
        assert front[k] == items[k];
      } else {
        assert k !in news;
      }
    }
  }

  lemma AddedNext(rows: seq<Model>, items: seq<Item>, clock: nat -> int, environment: string)
    requires items != [] && Writable(items)
    ensures
      var n := |items| - 1;
      var earlier := Stage(rows, items[..n], clock, environment).added;
      Stage(rows, items, clock, environment).added ==
      if IsNew(rows, items, n) then earlier + [NewRow(items, clock, environment, n)] else earlier
  {
    var n := |items| - 1;
    var item := items[n];
    NewByPosition(rows, items, n);
    assert Fresh(Key(item), MemberText(item.attributes[EntityName])).attributes + item.attributes == item.attributes;
  }

  /** The rows to insert, item by item. */
  predicate AddedFor(items: seq<Item>, clock: nat -> int, environment: string, news: seq<nat>, added: seq<Model>)
    requires Writable(items)
  {
    && |news| == |added|
    && forall k :: 0 <= k < |news| ==> news[k] < |items| && added[k] == NewRow(items, clock, environment, news[k])
  }

  lemma AddedForMore(items: seq<Item>, clock: nat -> int, environment: string, news: seq<nat>, added: seq<Model>)
    requires items != [] && Writable(items) && AddedFor(items[..|items| - 1], clock, environment, news, added)
    ensures AddedFor(items, clock, environment, news, added)
    ensures var n := |items| - 1;
      AddedFor(items, clock, environment, news + [n], added + [NewRow(items, clock, environment, n)])
  {
  }

  lemma {:induction false} AddedAreNew(rows: seq<Model>, items: seq<Item>, clock: nat -> int, environment: string)
      returns (news: seq<nat>)
    requires Writable(items)
    ensures NewItems(rows, items, news)
    ensures AddedFor(items, clock, environment, news, Stage(rows, items, clock, environment).added)
  {
    if items == [] {
      news := [];
    } else {
      var n := |items| - 1;
      var earlier := AddedAreNew(rows, items[..n], clock, environment);
      AddedNext(rows, items, clock, environment);
      AddedForMore(items, clock, environment, earlier, Stage(rows, items[..n], clock, environment).added);
      NewsGrow(rows, items, earlier);
      news := if IsNew(rows, items, n) then earlier + [n] else earlier;
    }
  }

  lemma StageIsResult(rows: seq<Model>, items: seq<Item>, clock: nat -> int, environment: string)
    requires Writable(items) && Distinct(Keys(rows))
    ensures var s := Stage(rows, items, clock, environment);
            IsResult(rows, items, clock, environment, s.loaded + s.added)
  {
    var s := Stage(rows, items, clock, environment);
    var result := s.loaded + s.added;
    forall i | 0 <= i < |rows|
      ensures Amends(rows[i], items, clock, environment, result[i])
    {
      StagedLoaded(rows, items, clock, environment, i);
      AmendedAmends(rows[i], items, clock, environment);
    }
    var news := AddedAreNew(rows, items, clock, environment);
    assert NewRowsAre(items, clock, environment, news, result, |rows|);
  }

  // That result is one definite table.

  lemma {:induction false} LastForExists(items: seq<Item>, key: string)
    requires Writable(items) && exists n :: 0 <= n < |items| && Key(items[n]) == key
    ensures exists n :: 0 <= n < |items| && LastFor(items, key, n)
  {
    var k := |items| - 1;
    if Key(items[k]) == key {
      assert LastFor(items, key, k);
    } else {
      var front := items[..k];
      var n :| 0 <= n < |items| && Key(items[n]) == key;
      assert front[n] == items[n];
      LastForExists(front, key);
      var l :| 0 <= l < k && LastFor(front, key, l);
      assert LastFor(items, key, l);
    }
  }

  lemma AmendsOnce(row: Model, items: seq<Item>, clock: nat -> int, environment: string, m: Model, n: Model)
    requires Writable(items) && Amends(row, items, clock, environment, m) && Amends(row, items, clock, environment, n)
    ensures m == n
  {
    if exists k :: 0 <= k < |items| && Key(items[k]) == row.key {
      LastForExists(items, row.key);
      forall a: Attribute
        ensures a in m.attributes <==> a in n.attributes
        ensures a in m.attributes && a in n.attributes ==> m.attributes[a] == n.attributes[a]
      {
        OverlayIsLastListed(items, row.key, a);
        if a in Overlay(items, row.key) {
          var k :| LastLister(items, row.key, a, k) && Overlay(items, row.key)[a] == items[k].attributes[a];
          assert 0 <= k < |items|;
        }
      }
      assert m.attributes == n.attributes;
    }
  }

  /** Two increasing lists with the same elements are equal. */
  lemma {:induction false} IncreasingOnce(a: seq<nat>, b: seq<nat>)
    requires forall k, l :: 0 <= k < l < |a| ==> a[k] < a[l]
    requires forall k, l :: 0 <= k < l < |b| ==> b[k] < b[l]
    requires forall x :: x in a <==> x in b
    ensures a == b
    decreases |a|
  {
    assert b != [] ==> b[0] in b && b[0] in a;
    if a != [] {
      assert a[|a| - 1] in b;
      var x, y := a[|a| - 1], b[|b| - 1];
      assert y in a && x in b;
      assert x == y;
      var a', b' := a[..|a| - 1], b[..|b| - 1];
      forall z
        ensures z in a' <==> z in b'
      {
        assert z in a' <==> z in a && z != x;
        assert z in b' <==> z in b && z != y;
      }
      IncreasingOnce(a', b');
      assert a == a' + [x] && b == b' + [y];
    }
  }

  lemma ResultIsDetermined(rows: seq<Model>, items: seq<Item>, clock: nat -> int, environment: string,
                           first: seq<Model>, second: seq<Model>)
    requires Writable(items)
    requires IsResult(rows, items, clock, environment, first) && IsResult(rows, items, clock, environment, second)
    ensures first == second
  {
    var news :| NewItems(rows, items, news) && NewRowsAre(items, clock, environment, news, first, |rows|);
    var others :| NewItems(rows, items, others) && NewRowsAre(items, clock, environment, others, second, |rows|);
    SameNews(rows, items, news, others);
    forall i | 0 <= i < |first|
      ensures first[i] == second[i]
    {
      if i < |rows| {
        AmendsOnce(rows[i], items, clock, environment, first[i], second[i]);
      } else {
        SameNewRow(items, clock, environment, news, first, second, |rows|, i - |rows|);
      }
    }
  }

  lemma SameNewRow(items: seq<Item>, clock: nat -> int, environment: string, news: seq<nat>, first: seq<Model>,
                   second: seq<Model>, n: nat, k: nat)
    requires Writable(items) && k < |news|
    requires NewRowsAre(items, clock, environment, news, first, n) && NewRowsAre(items, clock, environment, news, second, n)
    ensures first[n + k] == second[n + k]
  {
    assert news[k] < |items|;
  }

  lemma SameNews(rows: seq<Model>, items: seq<Item>, news: seq<nat>, others: seq<nat>)
    requires Writable(items) && NewItems(rows, items, news) && NewItems(rows, items, others)
    ensures news == others
  {
    forall x: nat
      ensures x in news <==> x in others
    {
      if x < |items| {
        assert x in news <==> IsNew(rows, items, x);
      }
    }
    IncreasingOnce(news, others);
  }

  // The whole run.

  /** Items that share a key share one that the table has. */
  predicate NoNewKeyTwice(rows: seq<Model>, items: seq<Item>)
    requires Writable(items)
  {
    forall i, j :: 0 <= i < j < |items| && Key(items[i]) == Key(items[j]) ==> !IsNew(rows, items, i)
  }

  lemma SharedByPosition(rows: seq<Model>, items: seq<Item>)
    requires Writable(items)
    ensures NoNewKeyTwice(rows, items) <==> SharedKeysPresent(rows, items)
  {
    forall i: nat | i < |items|
      ensures IsNew(rows, items, i) <==> Position(rows, Key(items[i])).None?
    {
      NewByPosition(rows, items, i);
    }
  }

  /** The exit code and the table. */
  ghost predicate OutcomeIs(rows: seq<Model>, items: seq<Item>, environmentMatches: bool, environment: string,
                            ds: seq<Description>, apply: bool, clock: nat -> int, columns: Model -> bool,
                            exit: Exit, after: seq<Model>) {
    if !environmentMatches then exit == Code(1) && after == rows
    else if !FitBetween(items, ds, 0, |items|) then
      after == rows && exit == if HasStumble(items, ds, 0) then Crash else Code(1)
    else if !apply then exit == Code(0) && after == rows
    else if exists item :: item in items && item.mappingKey.None? then exit == Code(1) && after == rows
    else Writable(items) && WriteIs(rows, items, environment, clock, columns, exit, after)
  }

  /** The write: the whole result is committed, or nothing. */
  ghost predicate WriteIs(rows: seq<Model>, items: seq<Item>, environment: string, clock: nat -> int, columns: Model -> bool,
                          exit: Exit, after: seq<Model>)
    requires Writable(items)
  {
    exists result ::
      && IsResult(rows, items, clock, environment, result)
      && if NoNewKeyTwice(rows, items) && AllIn(result, columns) then exit == Code(0) && after == result
         else exit == Crash && after == rows
  }

  lemma FitItemsNameEntities(items: seq<Item>, ds: seq<Description>)
    requires FitBetween(items, ds, 0, |items|)
    ensures forall item :: item in items ==> EntityName in item.attributes
  {
    forall item | item in items
      ensures EntityName in item.attributes
    {
      var n :| 0 <= n < |items| && items[n] == item;
      assert Fits(items[n], ds);
    }
  }

  /** The tool's `run` as a whole, for every configuration, metadata, table and clock. */
  lemma OutcomeExactly(rows: seq<Model>, items: seq<Item>, environmentMatches: bool, environment: string,
                       ds: seq<Description>, apply: bool, clock: nat -> int, columns: Model -> bool)
    requires Distinct(Keys(rows))
    ensures
      var (exit, after) := Outcome(rows, items, environmentMatches, environment, ds, apply, clock, columns);
      OutcomeIs(rows, items, environmentMatches, environment, ds, apply, clock, columns, exit, after)
  {
    VerdictOfAll(items, ds);
    if FitBetween(items, ds, 0, |items|) {
      FitItemsNameEntities(items, ds);
      if forall item :: item in items ==> HasKey(item) {
        assert Writable(items);
        WriteOutcome(rows, items, environment, clock, columns);
      }
    }
  }

  lemma VerdictOfAll(items: seq<Item>, ds: seq<Description>)
    ensures CheckAll(items, EntityProperties(ds)) ==
      if FitBetween(items, ds, 0, |items|) then Valid else if HasStumble(items, ds, 0) then Broken else Invalid
  {
    VerdictFrom(items, ds, 0);
    assert items[0..] == items;
    if n: nat :| n < |items| && StumblesAt(items, ds, 0, n) {
      assert !FitBetween(items, ds, 0, |items|);
    }
  }

  predicate AllIn(rows: seq<Model>, columns: Model -> bool) {
    forall m :: m in rows ==> columns(m)
  }

  lemma CommitsExactly(rows: seq<Model>, items: seq<Item>, environment: string, clock: nat -> int, columns: Model -> bool)
    requires Distinct(Keys(rows)) && Writable(items)
    ensures var s := Stage(rows, items, clock, environment);
            Commits(s, columns) <==> NoNewKeyTwice(rows, items) && AllIn(s.loaded + s.added, columns)
  {
    KeysCollideIff(rows, items, clock, environment);
    SharedByPosition(rows, items);
  }

  lemma WriteOutcome(rows: seq<Model>, items: seq<Item>, environment: string, clock: nat -> int, columns: Model -> bool)
    requires Distinct(Keys(rows)) && Writable(items)
    ensures
      var s := Stage(rows, items, clock, environment);
      if Commits(s, columns) then WriteIs(rows, items, environment, clock, columns, Code(0), s.loaded + s.added)
      else WriteIs(rows, items, environment, clock, columns, Crash, rows)
  {
    StageIsResult(rows, items, clock, environment);
    CommitsExactly(rows, items, environment, clock, columns);
  }
}
