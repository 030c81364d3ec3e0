/**
 * The reflection-driven serializer: `JsonSerializer::Serialize` walks the
 * declared properties of an object's runtime type and builds the document
 * `{ "type": <name>, "properties": { <name>: <value>, ... } }`;
 * `JsonSerializer::Deserialize` pushes the values of such a document back
 * into the declared properties of an object.
 *
 * Both loops are proved against left folds over the declared property list
 * (`CollectProperties`, `ApplyProperties`); the lemmas below state what the
 * folds promise: which keys appear, which properties change, and the round trip.
 */
module JsonSerializer {
  import opened Wrappers
  import opened Json
  import opened Reflection

  /**
   * The serializer's two private value converters, whose bodies are not part
   * of this model. `deserializeVariant(j, current)` is
   * `DeserializeVariant(j, var)`: `None` when it returns false, otherwise
   * the converted value it leaves in `var` (the current value tells it which
   * kind to produce).
   */
  datatype Converters = Converters(
    serializeVariant: Value -> Option<Json>,
    deserializeVariant: (Json, Value) -> Option<Value>)

  /** The round-trip hypothesis: reading back any value the serializer accepted yields that value. */
  ghost predicate Inverts(c: Converters) {
    forall v, w | SameKind(v, w) && c.serializeVariant(v).Some? ::
      c.deserializeVariant(c.serializeVariant(v).value, w) == Some(v)
  }

  // ---------------------------------------------------------------------------
  // Serialize
  // ---------------------------------------------------------------------------

  /**
   * The `properties` object after the loop has visited `names`: a declared
   * property is present exactly when its value converts, and then holds the
   * converted value; an unconvertible one is left out.
   */
  function CollectProperties(c: Converters, names: seq<string>, values: map<string, Value>): (props: map<string, Json>)
    requires Readable(names, values)
    ensures forall k :: k in props <==> k in names && c.serializeVariant(values[k]).Some?
    ensures forall k <- props :: k in values && props[k] == c.serializeVariant(values[k]).value
    decreases |names|
  {
    if names == [] then map[]
    else
      var n := names[|names| - 1];
      var earlier := CollectProperties(c, names[..|names| - 1], values);
      match c.serializeVariant(values[n])
      case Some(j) => earlier[n := j]
      case None => earlier
  }

  /** The document `Serialize` returns for an object of type `t` holding `values`. */
  function SerializeDocument(c: Converters, t: TypeDescriptor, values: map<string, Value>): (doc: Json)
    requires Readable(t.properties, values)
    ensures doc.JObject? && doc.members.Keys == {"type", "properties"}
    ensures doc.members["type"] == JString(t.name)
    ensures doc.members["properties"].JObject?
  {
    JObject(map["type" := JString(t.name), "properties" := JObject(CollectProperties(c, t.properties, values))])
  }

  /** `JsonSerializer::Serialize`: reads the object, never writes it. */
  method Serialize(c: Converters, obj: Object) returns (doc: Json)
    requires obj.Valid()
    ensures doc == SerializeDocument(c, obj.runtimeType, obj.values)
  {
    var t := obj.runtimeType;
    var props: map<string, Json> := map[];
    for i := 0 to |t.properties|
      invariant props == CollectProperties(c, t.properties[..i], obj.values)
    {
      var name := t.properties[i];
      var value := obj.values[name];
      assert t.properties[..i + 1][..i] == t.properties[..i];
      match c.serializeVariant(value)
      case Some(j) => props := props[name := j];
      case None =>
    }
    assert t.properties[..|t.properties|] == t.properties;
    doc := JObject(map["type" := JString(t.name), "properties" := JObject(props)]);
  }

  // ---------------------------------------------------------------------------
  // Deserialize
  // ---------------------------------------------------------------------------

  /** The members of `doc["properties"]`, when the document has such an object. */
  function PropertiesSection(doc: Json): Option<map<string, Json>> {
    if Contains(doc, "properties") && doc.members["properties"].JObject?
    then Some(doc.members["properties"].members)
    else None
  }

  /**
   * The property values after the loop has visited `names`: for each declared
   * name present in `props`, the converted value is written back when the
   * conversion succeeds. Only such properties can change, and a failed
   * conversion leaves the property as it was.
   */
  function ApplyProperties(c: Converters, names: seq<string>, props: map<string, Json>, values: map<string, Value>): (r: map<string, Value>)
    requires Readable(names, values)
    ensures r.Keys == values.Keys
    ensures forall k <- values | !(k in names && k in props) :: r[k] == values[k]
    ensures forall k <- values | k in props && c.deserializeVariant(props[k], values[k]).None? :: r[k] == values[k]
    decreases |names|
  {
    if names == [] then values
    else
      var n := names[|names| - 1];
      var earlier := ApplyProperties(c, names[..|names| - 1], props, values);
      if n !in props then earlier
      else
        match c.deserializeVariant(props[n], earlier[n])
        case Some(v) => earlier[n := v]
        case None => earlier
  }

  /**
   * `JsonSerializer::Deserialize`: false, with the object untouched, unless the
   * document has a `properties` object; otherwise true, whatever happened to
   * the individual properties.
   */
  method Deserialize(c: Converters, doc: Json, obj: Object) returns (ok: bool)
    requires obj.Valid()
    modifies obj
    ensures obj.Valid()
    ensures ok <==> PropertiesSection(doc).Some?
    ensures obj.values == if ok
      then ApplyProperties(c, obj.runtimeType.properties, PropertiesSection(doc).value, old(obj.values))
      else old(obj.values)
  {
    if !Contains(doc, "properties") || !doc.members["properties"].JObject? {
      return false;
    }
    var props := doc.members["properties"].members;
    var t := obj.runtimeType;
    for i := 0 to |t.properties|
      invariant obj.Valid()
      invariant obj.values == ApplyProperties(c, t.properties[..i], props, old(obj.values))
    {
      assert t.properties[..i + 1][..i] == t.properties[..i];
      var name := t.properties[i];
      if name !in props {
        continue;
      }
      var current := obj.values[name];
      match c.deserializeVariant(props[name], current)
      case Some(v) => obj.values := obj.values[name := v];
      case None =>
    }
    assert t.properties[..|t.properties|] == t.properties;
    return true;
  }

  /**
   * The partial-map update rule, stated independently of the loop: a property
   * takes the converted document value when it is declared, present and
   * converts; every other entry keeps its previous value.
   */
  ghost function UpdateRule(c: Converters, names: seq<string>, props: map<string, Json>, values: map<string, Value>): map<string, Value>
  {
    map k | k in values ::
      if k in names && k in props && c.deserializeVariant(props[k], values[k]).Some?
      then c.deserializeVariant(props[k], values[k]).value
      else values[k]
  }

  lemma {:induction false} ApplyPropertyValue(c: Converters, names: seq<string>, props: map<string, Json>, values: map<string, Value>, k: string)
    requires Readable(names, values) && Distinct(names)
    requires k in values
    ensures ApplyProperties(c, names, props, values)[k] == UpdateRule(c, names, props, values)[k]
    decreases |names|
  {
    if names != [] && k in names && k in props {
      var prefix := names[..|names| - 1];
      var n := names[|names| - 1];
      if n == k {
        assert k !in prefix by {
          forall i | 0 <= i < |prefix| ensures prefix[i] != k {
            assert names[i] != names[|names| - 1];
          }
        }
      } else {
        assert k in prefix by {
          var i :| 0 <= i < |names| && names[i] == k;
          assert i < |names| - 1 && prefix[i] == k;
        }
        ApplyPropertyValue(c, prefix, props, values, k);
      }
    }
  }

  /**
   * When the type declares each property once, Deserialize's loop is exactly
   * the partial-map update rule.
   */
  lemma {:induction false} ApplyIsUpdateRule(c: Converters, names: seq<string>, props: map<string, Json>, values: map<string, Value>)
    requires Readable(names, values) && Distinct(names)
    ensures ApplyProperties(c, names, props, values) == UpdateRule(c, names, props, values)
  {
    var r, u := ApplyProperties(c, names, props, values), UpdateRule(c, names, props, values);
    forall k | k in values ensures r[k] == u[k] {
      ApplyPropertyValue(c, names, props, values, k);
    }
  }

  /**
   * Document keys that the type does not declare are never read: two
   * `properties` sections that agree on the declared names give the same result.
   */
  lemma {:induction false} UndeclaredKeysIgnored(c: Converters, names: seq<string>, props: map<string, Json>, props': map<string, Json>, values: map<string, Value>)
    requires Readable(names, values)
    requires forall n <- names :: (n in props <==> n in props') && (n in props ==> props[n] == props'[n])
    ensures ApplyProperties(c, names, props, values) == ApplyProperties(c, names, props', values)
    decreases |names|
  {
    if names != [] {
      UndeclaredKeysIgnored(c, names[..|names| - 1], props, props', values);
    }
  }

  /**
   * Deserialize never reads the document's `type` entry: replacing it does not
   * change what happens to the object.
   */
  lemma TypeEntryIgnored(doc: Json, other: Json)
    requires doc.JObject?
    ensures PropertiesSection(JObject(doc.members["type" := other])) == PropertiesSection(doc)
  {
  }

  // ---------------------------------------------------------------------------
  // Round trip
  // ---------------------------------------------------------------------------

  lemma {:induction false} RoundTripApply(c: Converters, names: seq<string>, props: map<string, Json>, a: map<string, Value>, b: map<string, Value>)
    requires Inverts(c)
    requires Readable(names, a) && Readable(names, b)
    requires forall n <- names :: SameKind(a[n], b[n])
    requires forall n <- names ::
      && (n in props <==> c.serializeVariant(a[n]).Some?)
      && (n in props ==> props[n] == c.serializeVariant(a[n]).value)
    ensures var r := ApplyProperties(c, names, props, b);
      forall k <- b :: r[k] == if k in names && c.serializeVariant(a[k]).Some? then a[k] else b[k]
    decreases |names|
  {
    if names != [] {
      var prefix := names[..|names| - 1];
      var n := names[|names| - 1];
      assert forall k <- names :: k in prefix || k == n;
      RoundTripApply(c, prefix, props, a, b);
      var earlier := ApplyProperties(c, prefix, props, b);
      if n in props {
        assert earlier[n] == a[n] || earlier[n] == b[n];
        assert SameKind(a[n], earlier[n]);
      }
    }
  }

  /**
   * Serializing `a` and deserializing the document into `b`, an object of the
   * same type: the document is accepted, every declared property whose value
   * in `a` converts now equals `a`'s, and every other property of `b` keeps
   * its value.
   */
  lemma RoundTrip(c: Converters, t: TypeDescriptor, a: map<string, Value>, b: map<string, Value>)
    requires Inverts(c)
    requires Readable(t.properties, a) && Readable(t.properties, b)
    requires forall n <- t.properties :: SameKind(a[n], b[n])
    ensures PropertiesSection(SerializeDocument(c, t, a)).Some?
    ensures var r := ApplyProperties(c, t.properties, PropertiesSection(SerializeDocument(c, t, a)).value, b);
      && r.Keys == b.Keys
      && forall k <- b :: r[k] == if k in t.properties && c.serializeVariant(a[k]).Some? then a[k] else b[k]
  {
    RoundTripApply(c, t.properties, CollectProperties(c, t.properties, a), a, b);
  }

  // ---------------------------------------------------------------------------
  // Converters for scalar values, and three clients that use them
  // ---------------------------------------------------------------------------

  function ScalarToJson(v: Value): Option<Json> {
    match v
    case VBool(b) => Some(JBool(b))
    case VInt(i) => Some(JInt(i))
    case VString(s) => Some(JString(s))
    case VOther(_, _) => None
  }

  function ScalarFromJson(j: Json, current: Value): Option<Value> {
    match (j, current)
    case (JBool(b), VBool(_)) => Some(VBool(b))
    case (JInt(i), VInt(_)) => Some(VInt(i))
    case (JString(s), VString(_)) => Some(VString(s))
    case _ => None
  }

  /** Converters for booleans, integers and strings satisfy the round-trip hypothesis. */
  lemma ScalarConvertersInvert()
    ensures Inverts(Converters(ScalarToJson, ScalarFromJson))
  {
  }

  function PlayerType(): TypeDescriptor {
    TypeDescriptor("Player", ["health", "name"])
  }

  /** A player serialized and read back into a freshly constructed player. */
  method PlayerRoundTrip() {
    var c := Converters(ScalarToJson, ScalarFromJson);
    var hero := new Object(PlayerType(), map["health" := VInt(100), "name" := VString("Hero")]);
    var doc := Serialize(c, hero);
    var copy := new Object(PlayerType(), map["health" := VInt(0), "name" := VString("")]);
    ScalarConvertersInvert();
    RoundTrip(c, PlayerType(), hero.values, copy.values);
    var ok := Deserialize(c, doc, copy);
    assert ok;
    assert copy.values["health"] == VInt(100);
    assert copy.values["name"] == VString("Hero");
  }

  /** An undeclared key is ignored and a missing one keeps its value. */
  method PlayerPartialDocument() {
    var c := Converters(ScalarToJson, ScalarFromJson);
    var values := map["health" := VInt(5), "name" := VString("Old")];
    var target := new Object(PlayerType(), values);
    var props := map["health" := JInt(7), "legacyField" := JInt(1)];
    var ok := Deserialize(c, JObject(map["properties" := JObject(props)]), target);
    assert Distinct(PlayerType().properties);
    ApplyPropertyValue(c, PlayerType().properties, props, values, "health");
    assert ok;
    assert target.values["health"] == VInt(7);
    assert target.values["name"] == VString("Old");
  }

  /** A document without `properties` is rejected and changes nothing. */
  method PlayerMalformedDocument() {
    var c := Converters(ScalarToJson, ScalarFromJson);
    var target := new Object(PlayerType(), map["health" := VInt(5), "name" := VString("Old")]);
    var ok := Deserialize(c, JObject(map["type" := JString("Player")]), target);
    assert !ok && target.values["health"] == VInt(5);
  }
}
