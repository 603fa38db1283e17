/** Entity and property descriptors consumed by the statement generator.
    They are built once by the metadata layer (not part of this model) and are
    read-only here. */
module Metadata {

  /** The kind of a mapped property. `Simple` stands for every regular
      column (scalars and collections alike): the generator treats them the same. */
  datatype PropertyType = Id | EmbeddedId | Simple | Counter

  /** One property or key. `componentNames` is meaningful only for an
      embedded (compound) id: the key's columns, in declared order. */
  datatype PropertyMeta = PropertyMeta(propertyName: string, propertyType: PropertyType, componentNames: seq<string>)
  {
    predicate IsCounter() { propertyType == Counter }

    predicate IsEmbeddedId() { propertyType == EmbeddedId }
  }

  /** One mapped entity. The three property lists are the subsets the
      metadata layer derives: every property except the id and the counters,
      the counters, and the columns loaded by a whole-entity select. */
  datatype EntityMeta = EntityMeta(
    className: string,
    tableName: string,
    idMeta: PropertyMeta,
    allMetasExceptIdAndCounters: seq<PropertyMeta>,
    allCounterMetas: seq<PropertyMeta>,
    columnsMetaToLoad: seq<PropertyMeta>)

  /** The physical columns a property occupies: every component of an
      embedded id, in declared order, or else the property's own name. The
      store has no column for a compound id as a whole. */
  function ColumnNames(pm: PropertyMeta): seq<string>
  {
    if pm.IsEmbeddedId() then pm.componentNames else [pm.propertyName]
  }

  /** The property names of a list of properties, in order. */
  function Names(pms: seq<PropertyMeta>): seq<string>
  {
    seq(|pms|, i requires 0 <= i < |pms| => pms[i].propertyName)
  }

  /** Whether the WHERE clause on this id can be started at all: an embedded
      id with no component never initialises the clause builder. */
  predicate HasKeyPredicate(id: PropertyMeta)
  {
    !id.IsEmbeddedId() || |id.componentNames| > 0
  }

  predicate Distinct<T(==)>(s: seq<T>)
  {
    forall i, j :: 0 <= i < j < |s| ==> s[i] != s[j]
  }

  /** The invariants the metadata layer guarantees for an entity: one id
      descriptor whose WHERE clause can be built, counters only in the
      counter list, the columns to load drawn from the id and the regular
      properties, and no column name used twice among the id columns, the
      regular properties and the counters. */
  predicate WellFormed(e: EntityMeta)
  {
    && (e.idMeta.propertyType == Id || e.idMeta.propertyType == EmbeddedId)
    && HasKeyPredicate(e.idMeta)
    && (forall pm <- e.allMetasExceptIdAndCounters :: pm.propertyType == Simple)
    && (forall pm <- e.allCounterMetas :: pm.IsCounter())
    && (forall pm <- e.columnsMetaToLoad :: pm == e.idMeta || pm in e.allMetasExceptIdAndCounters)
    && Distinct(ColumnNames(e.idMeta) + Names(e.allMetasExceptIdAndCounters) + Names(e.allCounterMetas))
  }
}
