/** Abstract syntax of the CQL statements the generator prepares. The text
    rendering belongs to the driver's query builder and is not modelled; a
    statement here records which columns appear, in which order, bound to
    which named markers, and whether a TTL marker is attached. */
module Cql {
  import opened Results

  /** Name of the bind marker carrying the time-to-live. */
  const TtlMarker := "ttl"

  /** A column bound to the named marker `:marker`: an inserted value in an
      INSERT, an equality `column = :marker` in a WHERE clause. */
  datatype Binding = Binding(column: string, marker: string)

  /** One assignment of an UPDATE: `column = :marker`,
      `column = column + :marker` or `column = column - :marker`. */
  datatype Assignment =
    | SetValue(column: string, marker: string)
    | Increment(column: string, marker: string)
    | Decrement(column: string, marker: string)

  /** A prepared statement. In `Select` an empty column list selects every
      column (`SELECT *`); `Literal` is a statement given as hand-built text. */
  datatype Statement =
    | Insert(table: string, values: seq<Binding>, ttl: Option<string>)
    | Select(columns: seq<string>, table: string, where: seq<Binding>)
    | Update(table: string, assignments: seq<Assignment>, where: seq<Binding>, ttl: Option<string>)
    | Delete(table: string, where: seq<Binding>)
    | Literal(text: string)

  /** The kinds of counter statement (increment, decrement, select, delete). */
  datatype QueryType = IncrQuery | DecrQuery | SelectQuery | DeleteQuery

  /** The columns of a list of bindings, in order. */
  function Columns(bs: seq<Binding>): seq<string>
  {
    seq(|bs|, i requires 0 <= i < |bs| => bs[i].column)
  }

  /** Every column is bound to the marker of its own name. */
  predicate SelfBound(bs: seq<Binding>)
  {
    forall i :: 0 <= i < |bs| ==> bs[i].marker == bs[i].column
  }

  /** Binds each column to the marker of its own name. */
  function BindEach(cols: seq<string>): seq<Binding>
  {
    seq(|cols|, i requires 0 <= i < |cols| => Binding(cols[i], cols[i]))
  }

  /** A clause builder that starts as null: the first element starts the
      clause (`where(x)`, `with(x)`) and every later one is chained onto it
      (`and(x)`). Folding no element leaves the builder as it was. */
  function Chain<T>(builder: Option<seq<T>>, xs: seq<T>): (r: Option<seq<T>>)
    ensures r.None? <==> builder.None? && |xs| == 0
    ensures r.Some? ==> r.value == (if builder.None? then [] else builder.value) + xs
    decreases |xs|
  {
    if |xs| == 0 then builder
    else
      var started := if builder.None? then [xs[0]] else builder.value + [xs[0]];
      assert started + xs[1..] == (if builder.None? then [] else builder.value) + xs;
      Chain(Some(started), xs[1..])
  }
}
