/** Decoding of wide-row composite columns into typed keys, values and
    time-to-live. A column's name is a composite: an ordered list of raw
    components. The deserialisers and the builder of compound keys are
    capabilities of the property descriptor, given here as functions, so
    the model states only how the column is taken apart and routed to them.
    A deserialiser reports a malformed input as a `Failure`, which is
    propagated unchanged: no default is substituted and no partial record is
    returned. */
module CompositeTransformer {
  import opened Results

  datatype DecodeError = MissingComponent(index: nat) | Malformed(reason: string)

  /** A raw wide-row column: composite name components of type `C`, a raw
      value of type `B`, and the time-to-live reported by the store. */
  datatype HColumn<C, B> = HColumn(name: seq<C>, value: B, ttl: int)

  /** What the decoder needs of a property: whether its key is a single
      component, the deserialiser of that component, the deserialiser of
      the value, and the builder of a compound key from all components. */
  datatype PropertyMeta<!C, !B, K, V> = PropertyMeta(
    isSingleKey: bool,
    keySerializer: C -> Result<K, DecodeError>,
    valueDecoder: B -> Result<V, DecodeError>,
    multiKeyBuilder: seq<C> -> Result<K, DecodeError>)

  /** A decoded column: key, value and time-to-live. */
  datatype KeyValue<K, V> = KeyValue(key: K, value: V, ttl: int)

  /** The raw component at `index` of a composite, deserialised; asking past
      the end fails. */
  function ComponentAt<C, K>(name: seq<C>, index: nat, deserialise: C -> Result<K, DecodeError>): Result<K, DecodeError>
  {
    if index < |name| then deserialise(name[index]) else Failure(MissingComponent(index))
  }

  /** The key of a column: component 0 deserialised with the key
      deserialiser for a single key, else the compound-key builder applied to
      the whole ordered component list. */
  function BuildKeyFromComposite<C, B, K, V>(pm: PropertyMeta<C, B, K, V>, col: HColumn<C, B>): (r: Result<K, DecodeError>)
    ensures pm.isSingleKey && |col.name| > 0 ==> r == pm.keySerializer(col.name[0])
    ensures pm.isSingleKey && |col.name| == 0 ==> r == Failure(MissingComponent(0))
    ensures !pm.isSingleKey ==> r == pm.multiKeyBuilder(col.name)
  {
    if pm.isSingleKey then ComponentAt(col.name, 0, pm.keySerializer)
    else pm.multiKeyBuilder(col.name)
  }

  /** A single key is read from component 0 and nothing else: two columns
      whose names agree on their first component decode to the same key,
      whatever their other components, values and ttls; a column whose name
      has no component has no key. */
  lemma SingleKeyReadsOnlyFirstComponent<C, B, K, V>(pm: PropertyMeta<C, B, K, V>, a: HColumn<C, B>, b: HColumn<C, B>)
    requires pm.isSingleKey
    ensures |a.name| > 0 && |b.name| > 0 && a.name[0] == b.name[0] ==>
              BuildKeyFromComposite(pm, a) == BuildKeyFromComposite(pm, b) == pm.keySerializer(a.name[0])
    ensures |a.name| == 0 ==> BuildKeyFromComposite(pm, a) == Failure(MissingComponent(0))
  {
  }

  /** A compound key receives the whole component list, in its order: with a
      builder that returns the components it is given, the key is exactly the
      column's name, nothing dropped or reordered. */
  lemma MultiKeyReceivesWholeOrderedName<C, B, V>(pm: PropertyMeta<C, B, seq<C>, V>, col: HColumn<C, B>)
    requires !pm.isSingleKey
    requires forall cs :: pm.multiKeyBuilder(cs) == Success(cs)
    ensures BuildKeyFromComposite(pm, col) == Success(col.name)
  {
  }

  /** The key, value and ttl of a column. The key is decoded first, so its
      error wins when both fail. */
  function BuildKeyValueFromComposite<C, B, K, V>(pm: PropertyMeta<C, B, K, V>, col: HColumn<C, B>)
    : (r: Result<KeyValue<K, V>, DecodeError>)
    ensures r.Success? <==> BuildKeyFromComposite(pm, col).Success? && pm.valueDecoder(col.value).Success?
    ensures r.Success? ==> r.value.key == BuildKeyFromComposite(pm, col).value
    ensures r.Success? ==> r.value.value == pm.valueDecoder(col.value).value && r.value.ttl == col.ttl
    ensures BuildKeyFromComposite(pm, col).Failure? ==> r == Failure(BuildKeyFromComposite(pm, col).error)
    ensures BuildKeyFromComposite(pm, col).Success? && pm.valueDecoder(col.value).Failure? ==>
              r == Failure(pm.valueDecoder(col.value).error)
  {
    match BuildKeyFromComposite(pm, col)
    case Failure(e) => Failure(e)
    case Success(key) =>
      match pm.valueDecoder(col.value)
      case Failure(e) => Failure(e)
      case Success(value) => Success(KeyValue(key, value, col.ttl))
  }

  /** The key transformer decodes the key of each column on its own, whatever
      the column's value; it agrees with the key of the decoded triple and
      fails exactly when key decoding makes the triple fail. */
  function BuildKeyTransformer<C(!new), B(!new), K, V>(pm: PropertyMeta<C, B, K, V>): (f: HColumn<C, B> -> Result<K, DecodeError>)
    ensures forall col :: BuildKeyValueFromComposite(pm, col).Success? ==>
              f(col) == Success(BuildKeyValueFromComposite(pm, col).value.key)
    ensures forall col :: f(col).Failure? ==> BuildKeyValueFromComposite(pm, col) == Failure(f(col).error)
    ensures forall col :: f(col) == BuildKeyFromComposite(pm, col)
  {
    (col: HColumn<C, B>) => BuildKeyFromComposite(pm, col)
  }

  /** The value transformer decodes the value of each column on its own,
      whatever its key; it agrees with the value of the decoded triple, and
      its failure makes the triple fail. */
  function BuildValueTransformer<C(!new), B(!new), K, V>(pm: PropertyMeta<C, B, K, V>): (f: HColumn<C, B> -> Result<V, DecodeError>)
    ensures forall col :: BuildKeyValueFromComposite(pm, col).Success? ==>
              f(col) == Success(BuildKeyValueFromComposite(pm, col).value.value)
    ensures forall col :: f(col).Failure? ==> BuildKeyValueFromComposite(pm, col).Failure?
    ensures forall col :: f(col) == pm.valueDecoder(col.value)
  {
    (col: HColumn<C, B>) => pm.valueDecoder(col.value)
  }

  /** The raw-value transformer hands back the undecoded value; decoding it
      afterwards gives what the value transformer gives. */
  function BuildRawValueTransformer<C(!new), B(!new), K, V>(pm: PropertyMeta<C, B, K, V>): (f: HColumn<C, B> -> B)
    ensures forall col :: f(col) == col.value
    ensures forall col :: pm.valueDecoder(f(col)) == BuildValueTransformer(pm)(col)
  {
    (col: HColumn<C, B>) => col.value
  }

  /** The ttl transformer reports the column's ttl unchanged, the same ttl as
      in the decoded triple. */
  function BuildTtlTransformer<C(!new), B(!new), K, V>(pm: PropertyMeta<C, B, K, V>): (f: HColumn<C, B> -> int)
    ensures forall col :: f(col) == col.ttl
    ensures forall col :: BuildKeyValueFromComposite(pm, col).Success? ==>
              f(col) == BuildKeyValueFromComposite(pm, col).value.ttl
  {
    (col: HColumn<C, B>) => col.ttl
  }

  /** The key-value transformer is the composition of the separate
      transformers: it succeeds exactly when the key and the value
      transformers both succeed, and then carries their results and the ttl
      transformer's; otherwise it fails with the key transformer's error if
      there is one, else with the value transformer's. */
  function BuildKeyValueTransformer<C(!new), B(!new), K, V>(pm: PropertyMeta<C, B, K, V>)
    : (f: HColumn<C, B> -> Result<KeyValue<K, V>, DecodeError>)
    ensures forall col :: f(col).Success? <==>
              BuildKeyTransformer(pm)(col).Success? && BuildValueTransformer(pm)(col).Success?
    ensures forall col :: f(col).Success? ==>
              f(col).value == KeyValue(BuildKeyTransformer(pm)(col).value,
                                       BuildValueTransformer(pm)(col).value,
                                       BuildTtlTransformer(pm)(col))
    ensures forall col :: f(col).Failure? ==>
              f(col).error == (if BuildKeyTransformer(pm)(col).Failure? then BuildKeyTransformer(pm)(col).error
                               else BuildValueTransformer(pm)(col).error)
  {
    (col: HColumn<C, B>) => BuildKeyValueFromComposite(pm, col)
  }

  // ------------------------------------------------------------- example

  /** Components and values of a small two-column compound key (an integer
      and a text), used to exercise the decoder on a concrete column. */
  datatype Cell = IntCell(i: int) | TextCell(s: string)

  function DecodeInt(c: Cell): Result<int, DecodeError>
  {
    if c.IntCell? then Success(c.i) else Failure(Malformed("not an int"))
  }

  function BuildIntTextKey(cs: seq<Cell>): Result<(int, string), DecodeError>
  {
    if |cs| == 2 && cs[0].IntCell? && cs[1].TextCell? then Success((cs[0].i, cs[1].s))
    else Failure(Malformed("not an (int, text) key"))
  }

  function IntTextProperty(): PropertyMeta<Cell, Cell, (int, string), int>
  {
    PropertyMeta(false, (c: Cell) => Failure(Malformed("not a single key")), DecodeInt, BuildIntTextKey)
  }

  /** The column with key components (5, "x"), value 42 and ttl 300 decodes
      to that key, value and ttl, whether decoded as a triple or through the
      separate transformers; a value that is not an integer is a decode
      error and yields no record. */
  lemma CompoundKeyExample()
    ensures var pm := IntTextProperty();
            var col := HColumn([IntCell(5), TextCell("x")], IntCell(42), 300);
            && BuildKeyValueFromComposite(pm, col) == Success(KeyValue((5, "x"), 42, 300))
            && BuildKeyTransformer(pm)(col) == Success((5, "x"))
            && BuildValueTransformer(pm)(col) == Success(42)
            && BuildTtlTransformer(pm)(col) == 300
    ensures var pm := IntTextProperty();
            BuildKeyValueFromComposite(pm, HColumn([IntCell(5), TextCell("x")], TextCell("oops"), 300)).Failure?
  {
  }
}
