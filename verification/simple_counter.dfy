/** The four hand-written CQL statements on the shared counter table, used
    for counters that are not part of a clustered (compound-key) entity.
    They are plain string concatenations, so they are modelled as text; the
    table and column names are constants defined outside this model and are
    kept abstract in `CounterSchema`. */
module SimpleCounter {
  import opened Cql

  /** The counter table, its value column, and the three key columns
      (owning class name, owning primary key, property name). */
  datatype CounterSchema = CounterSchema(
    table: string, value: string, fqcn: string, primaryKey: string, propertyName: string)

  /** The WHERE clause every counter statement ends with: one positional
      equality on each key column, in the order class name, primary key,
      property name. */
  function Filter(k: CounterSchema): string
  {
    "WHERE " + k.fqcn + " = ? " + "AND " + k.primaryKey + " = ? " + "AND " + k.propertyName + " = ?"
  }

  /** The head of an update of the value column of the counter table by
      `op` ('+' or '-'): `value = value + ?` or `value = value - ?`. */
  function UpdateHead(k: CounterSchema, op: char): string
  {
    "UPDATE " + k.table + " " + "SET " + k.value + " = " + k.value + " " + [op] + " ? "
  }

  /** The head of the read of the value column of the counter table. */
  function SelectHead(k: CounterSchema): string
  {
    "SELECT " + k.value + " " + "FROM " + k.table + " "
  }

  /** The head of the delete from the counter table. */
  function DeleteHead(k: CounterSchema): string
  {
    "DELETE FROM " + k.table + " "
  }

  predicate EndsWith(text: string, suffix: string)
  {
    |suffix| <= |text| && text[|text| - |suffix|..] == suffix
  }

  /** The simple-counter statements, keyed by query type: INCR adds to and
      DECR subtracts from the value column of the counter table, SELECT reads
      that column and DELETE deletes the counter's row, all filtered on the
      same three key columns. */
  function PrepareSimpleCounterQueryMap(k: CounterSchema): (m: map<QueryType, Statement>)
    ensures m.Keys == {IncrQuery, DecrQuery, SelectQuery, DeleteQuery}
    ensures forall q <- m.Keys :: m[q].Literal? && EndsWith(m[q].text, Filter(k))
    ensures m[IncrQuery].text == UpdateHead(k, '+') + Filter(k)
    ensures m[DecrQuery].text == UpdateHead(k, '-') + Filter(k)
    ensures m[SelectQuery].text == SelectHead(k) + Filter(k)
    ensures m[DeleteQuery].text == DeleteHead(k) + Filter(k)
  {
    var incr := UpdateHead(k, '+') + Filter(k);
    var decr := UpdateHead(k, '-') + Filter(k);
    var select := SelectHead(k) + Filter(k);
    var delete := DeleteHead(k) + Filter(k);
    assert EndsWith(incr, Filter(k)) && EndsWith(decr, Filter(k));
    assert EndsWith(select, Filter(k)) && EndsWith(delete, Filter(k));
    map[IncrQuery := Literal(incr), DecrQuery := Literal(decr), SelectQuery := Literal(select), DeleteQuery := Literal(delete)]
  }

  /** The increment and the decrement are the same text except for one
      character: `+` in the one, `-` in the other. */
  lemma IncrementAndDecrementDifferOnlyInOperator(k: CounterSchema)
    ensures var m := PrepareSimpleCounterQueryMap(k);
            var incr := m[IncrQuery].text;
            var decr := m[DecrQuery].text;
            var at := |"UPDATE " + k.table + " SET " + k.value + " = " + k.value + " "|;
            && |incr| == |decr| && at < |incr|
            && incr[at] == '+' && decr[at] == '-'
            && forall i :: 0 <= i < |incr| && i != at ==> incr[i] == decr[i]
  {
  }

  /** Number of occurrences of `c` in `s`. */
  function Count(s: string, c: char): nat
  {
    if |s| == 0 then 0 else (if s[0] == c then 1 else 0) + Count(s[1..], c)
  }

  lemma {:induction false} CountAppend(a: string, b: string, c: char)
    ensures Count(a + b, c) == Count(a, c) + Count(b, c)
    decreases |a|
  {
    if |a| == 0 {
      assert a + b == b;
    } else {
      assert (a + b)[1..] == a[1..] + b;
      CountAppend(a[1..], b, c);
    }
  }

  lemma {:induction false} CountAbsent(s: string, c: char)
    requires c !in s
    ensures Count(s, c) == 0
    decreases |s|
  {
    if |s| > 0 {
      assert c !in s[1..];
      CountAbsent(s[1..], c);
    }
  }

  /** None of the counter table's names contains a positional marker. */
  predicate NoMarkerIn(k: CounterSchema)
  {
    '?' !in k.table && '?' !in k.value && '?' !in k.fqcn && '?' !in k.primaryKey && '?' !in k.propertyName
  }

  lemma FilterMarkers(k: CounterSchema)
    requires NoMarkerIn(k)
    ensures Count(Filter(k), '?') == 3
  {
    var a, b, c := "WHERE " + k.fqcn, "AND " + k.primaryKey, "AND " + k.propertyName;
    CountAbsent(a, '?');
    CountAbsent(b, '?');
    CountAbsent(c, '?');
    assert Count(" = ? ", '?') == 1 && Count(" = ?", '?') == 1;
    CountAppend(a, " = ? ", '?');
    CountAppend(a + " = ? ", b, '?');
    CountAppend(a + " = ? " + b, " = ? ", '?');
    CountAppend(a + " = ? " + b + " = ? ", c, '?');
    CountAppend(a + " = ? " + b + " = ? " + c, " = ?", '?');
    assert Filter(k) == a + " = ? " + b + " = ? " + c + " = ?";
  }

  /** With marker-free names, the increment and decrement take four
      positional values (the delta and the three key columns) and the select
      and delete take three (the key columns). */
  lemma PositionalMarkerCounts(k: CounterSchema)
    requires NoMarkerIn(k)
    ensures var m := PrepareSimpleCounterQueryMap(k);
            && Count(m[IncrQuery].text, '?') == 4
            && Count(m[DecrQuery].text, '?') == 4
            && Count(m[SelectQuery].text, '?') == 3
            && Count(m[DeleteQuery].text, '?') == 3
  {
    var f := Filter(k);
    FilterMarkers(k);
    var upd := "UPDATE " + k.table + " " + "SET " + k.value + " = " + k.value + " ";
    var sel := SelectHead(k);
    var del := DeleteHead(k);
    CountAbsent(upd, '?');
    CountAbsent(sel, '?');
    CountAbsent(del, '?');
    assert Count(" ? ", '?') == 1;
    forall op: char | op != '?'
      ensures Count(upd + [op] + " ? " + f, '?') == 4
    {
      CountAbsent(upd + [op], '?');
      CountAppend(upd + [op], " ? ", '?');
      CountAppend(upd + [op] + " ? ", f, '?');
    }
    assert UpdateHead(k, '+') + f == upd + ['+'] + " ? " + f;
    assert UpdateHead(k, '-') + f == upd + ['-'] + " ? " + f;
    CountAppend(sel, f, '?');
    CountAppend(del, f, '?');
  }
}
