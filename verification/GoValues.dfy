/**
 Untyped Go values as capability records hold them, and what storing them as JSON and reading them
 back makes of them.
 */
module GoValues {
  import opened Descriptors
  import opened Wrappers

  /** The slice and map types that occur. */
  datatype GoType = StringSlice | MapSlice | AnySlice | AnyMap

  /** The dynamic types that occur: encoders leave typed lists, JSON only ever gives []any and
      map[string]any, and never a nil one. */
  datatype Any =
    | Null
    | Bool(b: bool)
    | Number(n: real)
    | Str(s: string)
    | Strings(strings: seq<string>)
    | Maps(maps: seq<Fields>)
    | List(items: seq<Any>)
    | Map(fields: map<string, Any>)
    | Nil(of: GoType)

  /** A map[string]any. */
  datatype Fields = NilFields | Fields(byName: map<string, Any>)

  /** json.Marshal then json.Unmarshal into an any; a nil slice or map is written as null. */
  function Stored(v: Any): Any
    decreases v
  {
    match v
    case Strings(strings) => List(seq(|strings|, i requires 0 <= i < |strings| => Str(strings[i])))
    case Maps(maps) =>
      List(seq(|maps|, i requires 0 <= i < |maps| =>
        match maps[i]
        case NilFields => Null
        case Fields(byName) => Map(map k | k in byName :: Stored(byName[k]))))
    case List(items) => List(seq(|items|, i requires 0 <= i < |items| => Stored(items[i])))
    case Map(fields) => Map(map k | k in fields :: Stored(fields[k]))
    case Nil(_) => Null
    case _ => v
  }

  function StoredFields(f: Fields): Any { if f.NilFields? then Null else Map(StoredMap(f.byName)) }

  function StoredMap(m: map<string, Any>): map<string, Any> { map k | k in m :: Stored(m[k]) }

  /** Made of JSON's own types only. */
  ghost predicate Plain(v: Any)
    decreases v
  {
    match v
    case Strings(_) => false
    case Maps(_) => false
    case List(items) => forall i | 0 <= i < |items| :: Plain(items[i])
    case Map(fields) => forall k | k in fields :: Plain(fields[k])
    case Nil(_) => false
    case _ => true
  }

  /** Storing leaves plain values alone. */
  lemma {:induction false} PlainIsKept(v: Any)
    requires Plain(v)
    ensures Stored(v) == v
    decreases v
  {
    match v
    case List(items) =>
      forall i | 0 <= i < |items|
        ensures Stored(items[i]) == items[i]
      {
        PlainIsKept(items[i]);
      }
      assert Stored(v).items == items;
    case Map(fields) =>
      forall k | k in fields
        ensures Stored(fields[k]) == fields[k]
      {
        PlainIsKept(fields[k]);
      }
      assert Stored(v).fields == fields;
    case _ =>
  }

  /** What is read back is plain. */
  lemma {:induction false} StoredIsPlain(v: Any)
    ensures Plain(Stored(v))
    decreases v
  {
    match v
    case Maps(maps) =>
      forall i | 0 <= i < |maps|
        ensures Plain(StoredFields(maps[i]))
      {
        if maps[i].Fields? {
          forall k | k in maps[i].byName
            ensures Plain(Stored(maps[i].byName[k]))
          {
            StoredIsPlain(maps[i].byName[k]);
          }
        }
      }
      assert forall i | 0 <= i < |maps| :: Stored(v).items[i] == StoredFields(maps[i]);
    case List(items) =>
      forall i | 0 <= i < |items|
        ensures Plain(Stored(items[i]))
      {
        StoredIsPlain(items[i]);
      }
    case Map(fields) =>
      forall k | k in fields
        ensures Plain(Stored(fields[k]))
      {
        StoredIsPlain(fields[k]);
      }
    case _ =>
  }

  /** Storing a second time changes nothing. */
  lemma StoredTwice(v: Any)
    ensures Stored(Stored(v)) == Stored(v)
  {
    StoredIsPlain(v);
    PlainIsKept(Stored(v));
  }

  lemma StoredMapTwice(m: map<string, Any>)
    ensures StoredMap(StoredMap(m)) == StoredMap(m)
  {
    forall k | k in m
      ensures Stored(Stored(m[k])) == Stored(m[k])
    {
      StoredTwice(m[k]);
    }
  }

  // ---------- google.protobuf.Struct ----------

  /** Value.AsInterface. */
  function AsInterface(v: Value): Any
    decreases v
  {
    match v
    case NullValue => Null
    case BoolValue(b) => Bool(b)
    case NumberValue(n) => Number(n)
    case StringValue(s) => Str(s)
    case ListValue(items) => List(seq(|items|, i requires 0 <= i < |items| => AsInterface(items[i])))
    case StructValue(fields) => Map(map k | k in fields :: AsInterface(fields[k]))
  }

  /** structpb.NewValue; None for a Go type it does not take. */
  function NewValue(v: Any): Option<Value>
    decreases v
  {
    match v
    case Null => Some(NullValue)
    case Bool(b) => Some(BoolValue(b))
    case Number(n) => Some(NumberValue(n))
    case Str(s) => Some(StringValue(s))
    case List(items) =>
      if forall i | 0 <= i < |items| :: NewValue(items[i]).Some?
      then Some(ListValue(seq(|items|, i requires 0 <= i < |items| && NewValue(items[i]).Some? =>
                                NewValue(items[i]).value)))
      else None
    case Map(fields) =>
      if forall k | k in fields :: NewValue(fields[k]).Some?
      then Some(StructValue(map k | k in fields :: NewValue(fields[k]).value))
      else None
    case Nil(AnySlice) => Some(ListValue([]))
    case Nil(AnyMap) => Some(StructValue(map[]))
    case _ => None
  }

  function AsMap(fields: map<string, Value>): map<string, Any> { map k | k in fields :: AsInterface(fields[k]) }

  /** structpb.NewStruct. */
  function NewStruct(m: map<string, Any>): Option<map<string, Value>> {
    if forall k | k in m :: NewValue(m[k]).Some? then Some(map k | k in m :: NewValue(m[k]).value) else None
  }

  /** NewValue undoes AsInterface, and AsInterface only makes plain values. */
  lemma {:induction false} ValueRoundTrip(v: Value)
    ensures NewValue(AsInterface(v)) == Some(v) && Plain(AsInterface(v))
    decreases v
  {
    match v
    case ListValue(items) =>
      forall i | 0 <= i < |items|
        ensures NewValue(AsInterface(items[i])) == Some(items[i]) && Plain(AsInterface(items[i]))
      {
        ValueRoundTrip(items[i]);
      }
      assert NewValue(AsInterface(v)).value.items == items;
    case StructValue(fields) =>
      forall k | k in fields
        ensures NewValue(AsInterface(fields[k])) == Some(fields[k]) && Plain(AsInterface(fields[k]))
      {
        ValueRoundTrip(fields[k]);
      }
      assert NewValue(AsInterface(v)).value.fields == fields;
    case _ =>
  }

  lemma StructRoundTrip(fields: map<string, Value>)
    ensures NewStruct(AsMap(fields)) == Some(fields) && Plain(Map(AsMap(fields)))
  {
    forall k | k in fields
      ensures NewValue(AsInterface(fields[k])) == Some(fields[k]) && Plain(AsInterface(fields[k]))
    {
      ValueRoundTrip(fields[k]);
    }
    assert NewStruct(AsMap(fields)).value == fields;
  }

  /** No []string or []map[string]any in it, nil or not. */
  ghost predicate Convertible(v: Any)
    decreases v
  {
    match v
    case Strings(_) => false
    case Maps(_) => false
    case List(items) => forall i | 0 <= i < |items| :: Convertible(items[i])
    case Map(fields) => forall k | k in fields :: Convertible(fields[k])
    case Nil(goType) => goType in {AnySlice, AnyMap}
    case _ => true
  }

  /** A struct can be made of exactly the values without typed lists. */
  lemma {:induction false} StructsAreOfConvertibles(v: Any)
    ensures NewValue(v).Some? <==> Convertible(v)
    decreases v
  {
    match v
    case List(items) =>
      forall i | 0 <= i < |items|
        ensures NewValue(items[i]).Some? <==> Convertible(items[i])
      {
        StructsAreOfConvertibles(items[i]);
      }
    case Map(fields) =>
      forall k | k in fields
        ensures NewValue(fields[k]).Some? <==> Convertible(fields[k])
      {
        StructsAreOfConvertibles(fields[k]);
      }
    case _ =>
  }

  lemma {:induction false} PlainIsConvertible(v: Any)
    requires Plain(v)
    ensures Convertible(v)
    decreases v
  {
    match v
    case List(items) =>
      forall i | 0 <= i < |items|
        ensures Convertible(items[i])
      {
        PlainIsConvertible(items[i]);
      }
    case Map(fields) =>
      forall k | k in fields
        ensures Convertible(fields[k])
      {
        PlainIsConvertible(fields[k]);
      }
    case _ =>
  }

  /** What JSON gives back always makes a struct value, and the same one as before exactly when no
      typed list and no nil slice or map was in it. */
  lemma JsonKeepsStructs(v: Any)
    ensures NewValue(Stored(v)).Some?
    ensures NewValue(Stored(v)) == NewValue(v) <==> Plain(v)
  {
    StoredIsPlain(v);
    PlainIsConvertible(Stored(v));
    StructsAreOfConvertibles(Stored(v));
    if Plain(v) {
      PlainIsKept(v);
    } else {
      DifferentStruct(v);
    }
  }

  lemma {:induction false} DifferentStruct(v: Any)
    requires !Plain(v)
    ensures NewValue(Stored(v)) != NewValue(v)
    decreases v
  {
    StoredIsPlain(v);
    PlainIsConvertible(Stored(v));
    StructsAreOfConvertibles(Stored(v));
    match v
    case List(items) =>
      var i :| 0 <= i < |items| && !Plain(items[i]);
      DifferentStruct(items[i]);
      assert Stored(v).items[i] == Stored(items[i]);
      if NewValue(v).Some? {
        assert NewValue(v).value.items[i] == NewValue(items[i]).value;
        assert NewValue(Stored(v)).value.items[i] == NewValue(Stored(items[i])).value;
      }
    case Map(fields) =>
      var k :| k in fields && !Plain(fields[k]);
      DifferentStruct(fields[k]);
      if NewValue(v).Some? {
        assert NewValue(v).value.fields[k] == NewValue(fields[k]).value;
        assert NewValue(Stored(v)).value.fields[k] == NewValue(Stored(fields[k])).value;
      }
    case _ =>
  }
}
