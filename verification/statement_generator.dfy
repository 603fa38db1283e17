/** Generation of the prepared statements of an entity: insert, single-field
    and whole-entity select, update of chosen fields, delete, and the
    clustered-counter statements. Preparing a statement against the session
    is a driver round-trip and is modelled as the identity: each operation
    returns the statement it would prepare. */
module StatementGenerator {
  import opened Results
  import opened Metadata
  import opened Cql

  /** The exception the generator raises on a caller error. */
  datatype GeneratorError = IllegalArgument(message: string)

  /** Keys of the whole-row clustered-counter statements (the enum constant names). */
  const SelectAll := "SELECT_ALL"
  const DeleteAll := "DELETE_ALL"

  /** `part` occurs in `text` starting at index `k`. */
  predicate OccursAt(text: string, part: string, k: int)
  {
    0 <= k <= |text| - |part| && text[k..k + |part|] == part
  }

  /** `part` occurs somewhere in `text`. */
  predicate Mentions(text: string, part: string)
  {
    exists k | 0 <= k <= |text| :: OccursAt(text, part, k)
  }

  // ---------------------------------------------------------------- WHERE

  /** The WHERE clause on an entity's id, shared by select, update and
      delete: one equality on the id name for a simple id, one per component
      in declared order for an embedded id. `None` is the clause builder that
      was never initialised, which happens exactly for an embedded id
      without components. */
  function WhereClause(id: PropertyMeta): (w: Option<seq<Binding>>)
    ensures w.None? <==> !HasKeyPredicate(id)
    ensures w.Some? ==> Columns(w.value) == ColumnNames(id) && SelfBound(w.value)
  {
    if id.IsEmbeddedId() then
      Chain(None, BindEach(id.componentNames))
    else
      Some([Binding(id.propertyName, id.propertyName)])
  }

  /** The WHERE clause of an update, with the TTL marker attached to the
      update when `prepareTtl` holds. `None` when either builder was left
      null (no assignment, or an embedded id without components). */
  function WhereForUpdate(id: PropertyMeta, table: string, assignments: Option<seq<Assignment>>, prepareTtl: bool)
    : (s: Option<Statement>)
    ensures s.Some? <==> assignments.Some? && HasKeyPredicate(id)
    ensures s.Some? ==> s.value.Update? && s.value.table == table
    ensures s.Some? ==> s.value.assignments == assignments.value && s.value.where == WhereClause(id).value
    ensures s.Some? ==> (s.value.ttl == Some(TtlMarker) <==> prepareTtl) && (s.value.ttl.None? <==> !prepareTtl)
  {
    var where := WhereClause(id);
    if assignments.None? || where.None? then None
    else Some(Update(table, assignments.value, where.value, if prepareTtl then Some(TtlMarker) else None))
  }

  // --------------------------------------------------------------- INSERT

  /** The INSERT of a whole entity: the id's columns first, then every
      non-id, non-counter property, each bound to its own marker, with the
      TTL marker attached. */
  function PrepareInsert(e: EntityMeta): (s: Statement)
    ensures s.Insert? && s.table == e.tableName && s.ttl == Some(TtlMarker)
    ensures Columns(s.values) == ColumnNames(e.idMeta) + Names(e.allMetasExceptIdAndCounters)
    ensures SelfBound(s.values)
  {
    var key := BindEach(ColumnNames(e.idMeta));
    var values := BindEach(Names(e.allMetasExceptIdAndCounters));
    Insert(e.tableName, key + values, Some(TtlMarker))
  }

  /** In a well-formed entity no counter shares its name with an id column or
      a regular property, so no column of the entity's INSERT is a counter. */
  lemma CounterIsNotRegular(e: EntityMeta, c: PropertyMeta)
    requires WellFormed(e)
    requires c in e.allCounterMetas
    ensures c.propertyName !in ColumnNames(e.idMeta) + Names(e.allMetasExceptIdAndCounters)
    ensures c.propertyName !in Columns(PrepareInsert(e).values)
  {
    var regular := ColumnNames(e.idMeta) + Names(e.allMetasExceptIdAndCounters);
    var all := regular + Names(e.allCounterMetas);
    var j :| 0 <= j < |e.allCounterMetas| && e.allCounterMetas[j] == c;
    assert all[|regular| + j] == c.propertyName;
    forall i | 0 <= i < |regular|
      ensures regular[i] != c.propertyName
    {
      assert all[i] == regular[i];
    }
  }

  // --------------------------------------------------------------- SELECT

  /** Appends a property's columns to a selection: every component of an
      embedded id in declared order, otherwise the property's own name. */
  function SelectField(pm: PropertyMeta, selection: seq<string>): (r: seq<string>)
    ensures pm.IsEmbeddedId() ==> r == selection + pm.componentNames
    ensures !pm.IsEmbeddedId() ==> r == selection + [pm.propertyName]
  {
    selection + ColumnNames(pm)
  }

  /** Reference definition of a whole-entity selection: the concatenation of
      the columns of each property, in order. */
  function Expand(pms: seq<PropertyMeta>): seq<string>
  {
    if |pms| == 0 then [] else ColumnNames(pms[0]) + Expand(pms[1..])
  }

  /** The selection built by applying `SelectField` to each property in turn. */
  function SelectFields(pms: seq<PropertyMeta>, selection: seq<string>): (r: seq<string>)
    ensures r == selection + Expand(pms)
  {
    if |pms| == 0 then selection
    else
      assert selection + Expand(pms) == SelectField(pms[0], selection) + Expand(pms[1..]);
      SelectFields(pms[1..], SelectField(pms[0], selection))
  }

  /** The SELECT of one field. A counter cannot be read this way: the call
      fails with an illegal-argument error naming the property and the
      entity, and no statement is produced. */
  function PrepareSelectField(e: EntityMeta, pm: PropertyMeta): (r: Result<Statement, GeneratorError>)
    requires pm.IsCounter() || HasKeyPredicate(e.idMeta)
    ensures r.Failure? <==> pm.IsCounter()
    ensures r.Failure? ==> Mentions(r.error.message, pm.propertyName) && Mentions(r.error.message, e.className)
    ensures r.Success? ==> r.value.Select? && r.value.table == e.tableName
    ensures r.Success? ==> r.value.columns == ColumnNames(pm) && r.value.where == WhereClause(e.idMeta).value
  {
    if pm.IsCounter() then
      var prefix := "Cannot prepare statement for property '";
      var middle := "' of entity '";
      var message := prefix + pm.propertyName + middle + e.className + "' because it is a counter type";
      assert OccursAt(message, pm.propertyName, |prefix|);
      assert OccursAt(message, e.className, |prefix| + |pm.propertyName| + |middle|);
      Failure(IllegalArgument(message))
    else
      Success(Select(SelectField(pm, []), e.tableName, WhereClause(e.idMeta).value))
  }

  /** The SELECT of a whole entity: the columns of every property to load,
      filtered on the id. */
  function PrepareSelect(e: EntityMeta): (s: Statement)
    requires HasKeyPredicate(e.idMeta)
    ensures s.Select? && s.table == e.tableName && s.where == WhereClause(e.idMeta).value
    ensures s.columns == Expand(e.columnsMetaToLoad)
  {
    Select(SelectFields(e.columnsMetaToLoad, []), e.tableName, WhereClause(e.idMeta).value)
  }

  lemma {:induction false} ExpandAppend(a: seq<PropertyMeta>, b: seq<PropertyMeta>)
    ensures Expand(a + b) == Expand(a) + Expand(b)
    decreases |a|
  {
    if |a| == 0 {
      assert a + b == b;
    } else {
      assert (a + b)[1..] == a[1..] + b;
      ExpandAppend(a[1..], b);
    }
  }

  /** A column is selected for the whole entity exactly when it is a column
      of one of the properties to load. */
  lemma {:induction false} ExpandMembership(pms: seq<PropertyMeta>, c: string)
    ensures c in Expand(pms) <==> exists i :: 0 <= i < |pms| && c in ColumnNames(pms[i])
    decreases |pms|
  {
    if |pms| > 0 {
      ExpandMembership(pms[1..], c);
      if c in Expand(pms[1..]) {
        var i :| 0 <= i < |pms[1..]| && c in ColumnNames(pms[1..][i]);
        assert c in ColumnNames(pms[i + 1]);
      }
      if exists i :: 0 <= i < |pms| && c in ColumnNames(pms[i]) {
        var i :| 0 <= i < |pms| && c in ColumnNames(pms[i]);
        if i > 0 {
          assert c in ColumnNames(pms[1..][i - 1]);
        }
      }
    }
  }

  /** The whole-entity select is the concatenation of the single-field
      selects: the columns of the i-th property to load sit, unchanged and
      contiguous, right after those of the properties before it, and both
      statements filter on the same WHERE clause. */
  lemma SelectIsConcatenationOfFieldSelects(e: EntityMeta, i: nat)
    requires HasKeyPredicate(e.idMeta)
    requires i < |e.columnsMetaToLoad| && !e.columnsMetaToLoad[i].IsCounter()
    ensures var whole := PrepareSelect(e);
            var field := PrepareSelectField(e, e.columnsMetaToLoad[i]).value;
            var at := |Expand(e.columnsMetaToLoad[..i])|;
            && at + |field.columns| <= |whole.columns|
            && whole.columns[at..at + |field.columns|] == field.columns
            && whole.where == field.where
  {
    var load := e.columnsMetaToLoad;
    assert load == load[..i] + [load[i]] + load[i + 1..];
    ExpandAppend(load[..i] + [load[i]], load[i + 1..]);
    ExpandAppend(load[..i], [load[i]]);
    assert Expand([load[i]]) == ColumnNames(load[i]);
  }

  /** No column of a well-formed entity's whole-entity select is a counter. */
  lemma SelectLoadsNoCounter(e: EntityMeta, c: PropertyMeta)
    requires WellFormed(e)
    requires c in e.allCounterMetas
    ensures c.propertyName !in PrepareSelect(e).columns
  {
    var load := e.columnsMetaToLoad;
    var rest := e.allMetasExceptIdAndCounters;
    CounterIsNotRegular(e, c);
    forall i | 0 <= i < |load|
      ensures c.propertyName !in ColumnNames(load[i])
    {
      assert load[i] in load;
      if load[i] != e.idMeta {
        var j :| 0 <= j < |rest| && rest[j] == load[i];
        assert Names(rest)[j] == load[i].propertyName;
      }
    }
    ExpandMembership(load, c.propertyName);
  }

  // --------------------------------------------------------------- UPDATE

  /** The SET list of an update, one `property = :property` per property. */
  function SetEach(pms: seq<PropertyMeta>): seq<Assignment>
  {
    seq(|pms|, i requires 0 <= i < |pms| => SetValue(pms[i].propertyName, pms[i].propertyName))
  }

  /** The UPDATE of the given fields: exactly those properties, in the given
      order, each set from its own marker, filtered on the id, with the TTL
      marker attached. An empty property list leaves the assignment builder
      null, so at least one property is required. */
  function PrepareUpdateFields(e: EntityMeta, pms: seq<PropertyMeta>): (s: Statement)
    requires |pms| > 0 && HasKeyPredicate(e.idMeta)
    ensures s.Update? && s.table == e.tableName && s.ttl == Some(TtlMarker)
    ensures |s.assignments| == |pms|
    ensures forall i :: 0 <= i < |pms| ==> s.assignments[i] == SetValue(pms[i].propertyName, pms[i].propertyName)
    ensures s.where == WhereClause(e.idMeta).value
  {
    WhereForUpdate(e.idMeta, e.tableName, Chain(None, SetEach(pms)), true).value
  }

  /** Updating regular properties of a well-formed entity writes only
      columns its INSERT writes, and filters on exactly the id columns the
      INSERT starts with, in the same order. */
  lemma UpdateWritesInsertColumns(e: EntityMeta, pms: seq<PropertyMeta>)
    requires WellFormed(e)
    requires |pms| > 0 && forall pm <- pms :: pm in e.allMetasExceptIdAndCounters
    ensures var update := PrepareUpdateFields(e, pms);
            var insert := Columns(PrepareInsert(e).values);
            && (forall a <- update.assignments :: a.column in insert)
            && |ColumnNames(e.idMeta)| <= |insert|
            && Columns(update.where) == insert[..|ColumnNames(e.idMeta)|]
  {
    var update := PrepareUpdateFields(e, pms);
    var key := ColumnNames(e.idMeta);
    var names := Names(e.allMetasExceptIdAndCounters);
    forall a <- update.assignments
      ensures a.column in key + names
    {
      var i :| 0 <= i < |update.assignments| && update.assignments[i] == a;
      assert pms[i] in pms;
      var j :| 0 <= j < |e.allMetasExceptIdAndCounters| && e.allMetasExceptIdAndCounters[j] == pms[i];
      assert names[j] == a.column;
    }
    assert (key + names)[..|key|] == key;
  }

  // --------------------------------------------------------------- DELETE

  /** The DELETE statements of an entity, keyed by table name: one entry,
      deleting the row of the entity's table filtered on the id. */
  function PrepareRemovePSs(e: EntityMeta): (m: map<string, Statement>)
    requires HasKeyPredicate(e.idMeta)
    ensures m.Keys == {e.tableName}
    ensures m[e.tableName].Delete? && m[e.tableName].table == e.tableName
    ensures m[e.tableName].where == WhereClause(e.idMeta).value
    ensures m[e.tableName].where == PrepareSelect(e).where
  {
    map[e.tableName := Delete(e.tableName, WhereClause(e.idMeta).value)]
  }

  // ----------------------------------------------------- CLUSTERED COUNTERS

  /** The names of a list of properties, as a set. */
  function NameSet(pms: seq<PropertyMeta>): set<string>
  {
    set i | 0 <= i < |pms| :: pms[i].propertyName
  }

  lemma NameSetSnoc(pms: seq<PropertyMeta>, i: nat)
    requires i < |pms|
    ensures NameSet(pms[..i + 1]) == NameSet(pms[..i]) + {pms[i].propertyName}
  {
    assert pms[..i + 1] == pms[..i] + [pms[i]];
  }

  /** The per-counter statements of the clustered-counter loop: for each
      counter, keyed by its name, its increment and decrement (without TTL)
      and its single-column select, all filtered on the id. */
  method PreparePerCounterStatements(idMeta: PropertyMeta, tableName: string, counters: seq<PropertyMeta>)
    returns (incr: map<string, Statement>, decr: map<string, Statement>, select: map<string, Statement>)
    requires HasKeyPredicate(idMeta)
    ensures incr.Keys == NameSet(counters) && decr.Keys == NameSet(counters) && select.Keys == NameSet(counters)
    ensures forall n <- incr.Keys :: incr[n] == Update(tableName, [Increment(n, n)], WhereClause(idMeta).value, None)
    ensures forall n <- decr.Keys :: decr[n] == Update(tableName, [Decrement(n, n)], WhereClause(idMeta).value, None)
    ensures forall n <- select.Keys :: select[n] == Select([n], tableName, WhereClause(idMeta).value)
  {
    var where := WhereClause(idMeta).value;
    incr, decr, select := map[], map[], map[];
    var i := 0;
    while i < |counters|
      invariant 0 <= i <= |counters|
      invariant incr.Keys == NameSet(counters[..i])
      invariant decr.Keys == NameSet(counters[..i])
      invariant select.Keys == NameSet(counters[..i])
      invariant forall n <- incr.Keys :: incr[n] == Update(tableName, [Increment(n, n)], where, None)
      invariant forall n <- decr.Keys :: decr[n] == Update(tableName, [Decrement(n, n)], where, None)
      invariant forall n <- select.Keys :: select[n] == Select([n], tableName, where)
    {
      var counterName := counters[i].propertyName;
      var increment := WhereForUpdate(idMeta, tableName, Some([Increment(counterName, counterName)]), false).value;
      var decrement := WhereForUpdate(idMeta, tableName, Some([Decrement(counterName, counterName)]), false).value;
      incr := incr[counterName := increment];
      decr := decr[counterName := decrement];
      select := select[counterName := Select([counterName], tableName, where)];
      NameSetSnoc(counters, i);
      i := i + 1;
    }
    assert counters[..i] == counters;
  }

  /** The clustered-counter statements of an entity. The INCR and DECR maps
      hold one statement per counter, keyed by its name; the SELECT map holds
      the per-counter selects plus a select of the whole row under
      `SELECT_ALL` (put last, so it wins over a counter of that name); the
      DELETE map holds only the whole-row delete under `DELETE_ALL`. */
  method PrepareClusteredCounterQueryMap(meta: EntityMeta) returns (m: map<QueryType, map<string, Statement>>)
    requires HasKeyPredicate(meta.idMeta)
    ensures m.Keys == {IncrQuery, DecrQuery, SelectQuery, DeleteQuery}
    ensures m[IncrQuery].Keys == NameSet(meta.allCounterMetas)
    ensures m[DecrQuery].Keys == NameSet(meta.allCounterMetas)
    ensures m[SelectQuery].Keys == NameSet(meta.allCounterMetas) + {SelectAll}
    ensures m[DeleteQuery].Keys == {DeleteAll}
    ensures forall n <- m[IncrQuery].Keys ::
              m[IncrQuery][n] == Update(meta.tableName, [Increment(n, n)], WhereClause(meta.idMeta).value, None)
    ensures forall n <- m[DecrQuery].Keys ::
              m[DecrQuery][n] == Update(meta.tableName, [Decrement(n, n)], WhereClause(meta.idMeta).value, None)
    ensures forall n <- m[SelectQuery].Keys | n != SelectAll ::
              m[SelectQuery][n] == Select([n], meta.tableName, WhereClause(meta.idMeta).value)
    ensures m[SelectQuery][SelectAll] == Select([], meta.tableName, WhereClause(meta.idMeta).value)
    ensures m[DeleteQuery][DeleteAll] == Delete(meta.tableName, WhereClause(meta.idMeta).value)
  {
    var where := WhereClause(meta.idMeta).value;
    var incr, decr, select := PreparePerCounterStatements(meta.idMeta, meta.tableName, meta.allCounterMetas);
    var selectAll := select[SelectAll := Select([], meta.tableName, where)];
    m := map[
      IncrQuery := incr,
      DecrQuery := decr,
      SelectQuery := selectAll,
      DeleteQuery := map[DeleteAll := Delete(meta.tableName, where)]
    ];
  }
}
