/**
 The capability record codec: descriptors to untyped metadata maps and back, directly or after the
 map has been through a JSON database.  The JSON form of whole messages is protojson's business and
 enters as a pair of inverse functions; config schemas are encoded here, key by key.
 */
module Codec {
  import opened Descriptors
  import opened GoValues
  import opened Wrappers

  /** The metadata keys the codec uses; any other key of a record is foreign to it. */
  datatype Key =
    | DisplayName | Description | Subscriptions | AuthModes | IconUrl
    | WatchSyncKey | RequestRouterKey | ConfigSchemaKey | MetadataKey
    | Foreign(name: string)

  datatype Record = Record(kind: string, id: string, metadata: Option<map<Key, Any>>)

  datatype DecodeError = BadList | BadWatchSync | BadRequestRouter | BadConfigSchema | BadMetadata

  /** protojson of the message types the codec hands over whole, each read from stored JSON. */
  datatype Proto = Proto(watchSync: WatchSync -> map<string, Any>, toWatchSync: Any -> Option<WatchSync>,
                         router: RequestRouter -> map<string, Any>, toRouter: Any -> Option<RequestRouter>,
                         form: AdminForm -> Any, toForm: Any -> Option<AdminForm>)

  /** protojson gives messages back with nil list entries empty, and what it writes is JSON, an object
      where the codec needs one. */
  ghost predicate Lawful(p: Proto) {
    && (forall w: WatchSync ::
          Plain(Map(p.watchSync(w))) && p.toWatchSync(Map(p.watchSync(w))) == Some(FilledWatchSync(w)))
    && (forall r: RequestRouter :: Plain(Map(p.router(r))) && p.toRouter(Map(p.router(r))) == Some(r))
    && (forall f: AdminForm :: Plain(p.form(f)) && p.form(f) != Null && p.toForm(p.form(f)) == Some(FilledForm(f)))
  }

  /** protojson writes a nil entry of a list as {}, which it reads as an empty message. */
  function FilledWith<T>(list: seq<Option<T>>, empty: T): seq<Option<T>> {
    seq(|list|, i requires 0 <= i < |list| => if list[i].Some? then list[i] else Some(empty))
  }

  const EMPTY_SETTING := ConnectionSetting("", "", 0, None)
  const EMPTY_FIELD := FormField("", 0, None, [], false, [], "")
  const EMPTY_SECTION := FormSection("", [], [])

  function FilledWatchSync(w: WatchSync): WatchSync {
    w.(connectionSettings := FilledWith(w.connectionSettings, EMPTY_SETTING))
  }

  function FilledForm(f: AdminForm): AdminForm {
    AdminForm(FilledWith(f.fields, EMPTY_FIELD), FilledWith(f.sections, EMPTY_SECTION))
  }

  const EMPTY_SCHEMA := ConfigSchema("", "", "", "", false, None)

  // ---------- config schemas as JSON ----------

  function WithString(m: map<string, Any>, name: string, s: string): map<string, Any> {
    if s == "" then m else m[name := Str(s)]
  }

  /** protojson of a schema under its proto names: default values are left out. */
  function SchemaJson(s: ConfigSchema, p: Proto): map<string, Any> {
    var m1 := WithString(map[], "key", s.key);
    var m2 := WithString(m1, "title", s.title);
    var m3 := WithString(m2, "description", s.description);
    var m4 := WithString(m3, "json_schema", s.jsonSchema);
    var m5 := if s.required then m4["required" := Bool(true)] else m4;
    if s.adminForm.Some? then m5["admin_form" := p.form(s.adminForm.value)] else m5
  }

  /** The record keeps the keys of the original scalar encoding, also when they hold defaults. */
  function SchemaRecord(s: ConfigSchema, p: Proto): map<string, Any> {
    SchemaJson(s, p)["key" := Str(s.key)]["title" := Str(s.title)]["description" := Str(s.description)]
      ["json_schema" := Str(s.jsonSchema)]["required" := Bool(s.required)]
  }

  function EncodedSchema(s: Option<ConfigSchema>, p: Proto): map<string, Any> {
    if s.Some? then SchemaRecord(s.value, p) else map[]
  }

  /** The value under a field's proto name or its JSON name; both at once is an error. */
  function Member(m: map<string, Any>, name: string, jsonName: string): Option<Any> {
    if name in m && jsonName in m && name != jsonName then None
    else if name in m then Some(m[name])
    else if jsonName in m then Some(m[jsonName])
    else Some(Null)
  }

  function StringMember(m: map<string, Any>, name: string, jsonName: string): Option<string> {
    match Member(m, name, jsonName)
    case Some(Str(s)) => Some(s)
    case Some(Null) => Some("")
    case _ => None
  }

  function BoolMember(m: map<string, Any>, name: string): Option<bool> {
    match Member(m, name, name)
    case Some(Bool(b)) => Some(b)
    case Some(Null) => Some(false)
    case _ => None
  }

  function FormMember(m: map<string, Any>, p: Proto): Option<Option<AdminForm>> {
    match Member(m, "admin_form", "adminForm")
    case None => None
    case Some(Null) => Some(None)
    case Some(v) => if p.toForm(v).Some? then Some(p.toForm(v)) else None
  }

  /** Tolerant decoding of a schema: unknown names are dropped, null and absent mean default. */
  function ToSchema(m: map<string, Any>, p: Proto): Option<ConfigSchema> {
    var key, title := StringMember(m, "key", "key"), StringMember(m, "title", "title");
    var description := StringMember(m, "description", "description");
    var schema := StringMember(m, "json_schema", "jsonSchema");
    var required, form := BoolMember(m, "required"), FormMember(m, p);
    if key.Some? && title.Some? && description.Some? && schema.Some? && required.Some? && form.Some? then
      Some(ConfigSchema(key.value, title.value, description.value, schema.value, required.value, form.value))
    else None
  }

  // ---------- encoding ----------

  /** The metadata of a descriptor, entry by entry: None where the encoder leaves the key out. */
  function Entry(d: Descriptor, key: Key, p: Proto): Option<Any> {
    match key
    case DisplayName => Some(Str(d.displayName))
    case Description => Some(Str(d.description))
    case Subscriptions => if d.subscriptions == [] then None else Some(Strings(d.subscriptions))
    case AuthModes => if d.authModes == [] then None else Some(Strings(d.authModes))
    case IconUrl => if d.iconUrl == "" then None else Some(Str(d.iconUrl))
    case WatchSyncKey => if d.watchSync.None? then None else Some(Map(p.watchSync(d.watchSync.value)))
    case RequestRouterKey => if d.requestRouter.None? then None else Some(Map(p.router(d.requestRouter.value)))
    case ConfigSchemaKey => if d.configSchema == [] then None else Some(Maps(EncodedSchemas(d.configSchema, p)))
    case MetadataKey => if d.metadata.None? then None else Some(Map(AsMap(d.metadata.value)))
    case Foreign(_) => None
  }

  function EncodedSchemas(schemas: seq<Option<ConfigSchema>>, p: Proto): (fields: seq<Fields>)
    ensures |fields| == |schemas|
  {
    if schemas == [] then []
    else EncodedSchemas(schemas[..|schemas| - 1], p) + [Fields(EncodedSchema(schemas[|schemas| - 1], p))]
  }

  /** m is the metadata the encoder makes of d: exactly the entries above. */
  ghost predicate IsMetadataOf(m: map<Key, Any>, d: Descriptor, p: Proto) { FilledUpTo(m, d, p, 9) }

  function Rank(key: Key): nat {
    match key
    case DisplayName => 0
    case Description => 1
    case Subscriptions => 2
    case AuthModes => 3
    case IconUrl => 4
    case WatchSyncKey => 5
    case RequestRouterKey => 6
    case ConfigSchemaKey => 7
    case MetadataKey => 8
    case Foreign(_) => 9
  }

  /** The same with only the first n keys dealt with. */
  ghost predicate FilledUpTo(m: map<Key, Any>, d: Descriptor, p: Proto, n: nat) {
    forall key: Key :: if key in m then Rank(key) < n && Entry(d, key, p) == Some(m[key])
                       else Rank(key) < n ==> Entry(d, key, p) == None
  }

  function Put(m: map<Key, Any>, key: Key, entry: Option<Any>): map<Key, Any> {
    if entry.Some? then m[key := entry.value] else m
  }

  lemma PutNext(m: map<Key, Any>, d: Descriptor, p: Proto, key: Key)
    requires FilledUpTo(m, d, p, Rank(key)) && !key.Foreign?
    ensures FilledUpTo(Put(m, key, Entry(d, key, p)), d, p, Rank(key) + 1)
  {
  }

  method EncodeSchemas(schemas: seq<Option<ConfigSchema>>, p: Proto) returns (fields: seq<Fields>)
    ensures fields == EncodedSchemas(schemas, p)
  {
    fields := [];
    for i := 0 to |schemas|
      invariant fields == EncodedSchemas(schemas[..i], p)
    {
      assert schemas[..i + 1][..i] == schemas[..i];
      if schemas[i].None? {
        fields := fields + [Fields(map[])];
        continue;
      }
      var schema := schemas[i].value;
      var value := SchemaJson(schema, p);
      value := value["key" := Str(schema.key)];
      value := value["title" := Str(schema.title)];
      value := value["description" := Str(schema.description)];
      value := value["json_schema" := Str(schema.jsonSchema)];
      value := value["required" := Bool(schema.required)];
      fields := fields + [Fields(value)];
    }
    assert schemas[..|schemas|] == schemas;
  }

  /** capabilityMetadata: fills the map key by key, first the scalars and lists, then the messages. */
  method CapabilityMetadata(d: Descriptor, p: Proto) returns (metadata: map<Key, Any>)
    ensures IsMetadataOf(metadata, d, p)
  {
    metadata := ScalarMetadata(d, p);
    metadata := PutMessages(metadata, d, p);
    if |d.configSchema| > 0 {
      var schemas := EncodeSchemas(d.configSchema, p);
      PutNext(metadata, d, p, ConfigSchemaKey);
      metadata := metadata[ConfigSchemaKey := Maps(schemas)];
    } else {
      PutNext(metadata, d, p, ConfigSchemaKey);
    }
    PutNext(metadata, d, p, MetadataKey);
    if d.metadata.Some? {
      metadata := metadata[MetadataKey := Map(AsMap(d.metadata.value))];
    }
  }

  method ScalarMetadata(d: Descriptor, ghost p: Proto) returns (metadata: map<Key, Any>)
    ensures FilledUpTo(metadata, d, p, 5)
  {
    metadata := map[DisplayName := Str(d.displayName), Description := Str(d.description)];
    PutNext(metadata, d, p, Subscriptions);
    if |d.subscriptions| > 0 {
      metadata := metadata[Subscriptions := Strings(d.subscriptions)];
    }
    PutNext(metadata, d, p, AuthModes);
    if |d.authModes| > 0 {
      metadata := metadata[AuthModes := Strings(d.authModes)];
    }
    PutNext(metadata, d, p, IconUrl);
    if d.iconUrl != "" {
      metadata := metadata[IconUrl := Str(d.iconUrl)];
    }
  }

  method PutMessages(m: map<Key, Any>, d: Descriptor, p: Proto) returns (metadata: map<Key, Any>)
    requires FilledUpTo(m, d, p, 5)
    ensures FilledUpTo(metadata, d, p, 7)
  {
    metadata := m;
    PutNext(metadata, d, p, WatchSyncKey);
    if d.watchSync.Some? {
      metadata := metadata[WatchSyncKey := Map(p.watchSync(d.watchSync.value))];
    }
    PutNext(metadata, d, p, RequestRouterKey);
    if d.requestRouter.Some? {
      metadata := metadata[RequestRouterKey := Map(p.router(d.requestRouter.value))];
    }
  }

  /** CapabilityRecordsFromManifest: a record for each capability, in order. */
  method CapabilityRecords(capabilities: seq<Descriptor>, p: Proto) returns (records: seq<Record>)
    ensures |records| == |capabilities|
    ensures forall i | 0 <= i < |records| :: IsRecordOf(records[i], capabilities[i], p)
  {
    records := [];
    for i := 0 to |capabilities|
      invariant |records| == i
      invariant forall k | 0 <= k < i :: IsRecordOf(records[k], capabilities[k], p)
    {
      var metadata := CapabilityMetadata(capabilities[i], p);
      records := records + [Record(capabilities[i].kind, capabilities[i].id, Some(metadata))];
    }
  }

  ghost predicate IsRecordOf(r: Record, d: Descriptor, p: Proto) {
    r.kind == d.kind && r.id == d.id && r.metadata.Some? && IsMetadataOf(r.metadata.value, d, p)
  }

  // ---------- decoding ----------

  function StringUnder(m: map<Key, Any>, key: Key): string {
    if key in m && m[key].Str? then m[key].s else ""
  }

  /** toStringSlice. */
  function ToStrings(v: Any): Option<seq<string>> {
    match v
    case Strings(strings) => Some(strings)
    case List(items) =>
      if forall i | 0 <= i < |items| :: items[i].Str?
      then Some(seq(|items|, i requires 0 <= i < |items| && items[i].Str? => items[i].s))
      else None
    case Nil(StringSlice) => Some([])
    case Nil(AnySlice) => Some([])
    case _ => None
  }

  function StringsUnder(m: map<Key, Any>, key: Key): Option<seq<string>> {
    if key in m then ToStrings(m[key]) else Some([])
  }

  /** toStringAnyMap: a nil map stays nil, any other type gives an empty map. */
  function ToFields(v: Any): Fields {
    match v
    case Map(fields) => Fields(fields)
    case Nil(AnyMap) => NilFields
    case _ => Fields(map[])
  }

  /** The entries of a config_schema value, each read as a map whatever it is. */
  function SchemaEntries(v: Any): Option<seq<Fields>> {
    match v
    case List(items) => Some(seq(|items|, i requires 0 <= i < |items| => ToFields(items[i])))
    case Maps(maps) => Some(maps)
    case Nil(MapSlice) => Some([])
    case Nil(AnySlice) => Some([])
    case _ => None
  }

  /** An entry written as JSON and read as a schema; a nil map is written as null, which is no message. */
  function DecodedEntry(f: Fields, p: Proto): Option<ConfigSchema> {
    if f.NilFields? then None else ToSchema(StoredMap(f.byName), p)
  }

  function DecodedSchemas(entries: seq<Fields>, p: Proto): Option<seq<Option<ConfigSchema>>> {
    if entries == [] then Some([])
    else
      var front := DecodedSchemas(entries[..|entries| - 1], p);
      var last := DecodedEntry(entries[|entries| - 1], p);
      if front.Some? && last.Some? then Some(front.value + [last]) else None
  }

  function ConfigSchemaUnder(m: map<Key, Any>, p: Proto): Option<seq<Option<ConfigSchema>>> {
    if ConfigSchemaKey !in m then Some([])
    else match SchemaEntries(m[ConfigSchemaKey])
      case Some(entries) => DecodedSchemas(entries, p)
      case None => None
  }

  /** An optional message under a key: absent, decoded from its JSON form, or malformed. */
  function MessageUnder<T>(m: map<Key, Any>, key: Key, decode: Any -> Option<T>): Option<Option<T>> {
    if key !in m then Some(None)
    else if decode(Stored(m[key])).Some? then Some(decode(Stored(m[key])))
    else None
  }

  /** The free-form metadata; a nil map makes an empty struct. */
  function ToStruct(v: Any): Option<map<string, Value>> {
    match ToFields(v)
    case NilFields => NewStruct(map[])
    case Fields(byName) => NewStruct(byName)
  }

  function MetadataUnder(m: map<Key, Any>): Option<Option<map<string, Value>>> {
    if MetadataKey !in m then Some(None)
    else if ToStruct(m[MetadataKey]).Some? then Some(ToStruct(m[MetadataKey]))
    else None
  }

  function Blank(kind: string, id: string): Descriptor {
    Descriptor(kind, id, "", "", [], [], "", None, None, None, [], None)
  }

  /** The strings and lists of a record, on a descriptor that has nothing else. */
  function ScalarPart(kind: string, id: string, m: map<Key, Any>): Result<Descriptor, DecodeError> {
    var subscriptions, modes := StringsUnder(m, Subscriptions), StringsUnder(m, AuthModes);
    if subscriptions.None? || modes.None? then Failure(BadList)
    else Success(Descriptor(kind, id, StringUnder(m, DisplayName), StringUnder(m, Description), subscriptions.value,
                            modes.value, StringUnder(m, IconUrl), None, None, None, [], None))
  }

  /** The messages of a record added to a descriptor; the first that fails is the error. */
  function MessagePart(d: Descriptor, m: map<Key, Any>, p: Proto): Result<Descriptor, DecodeError> {
    var watchSync := MessageUnder(m, WatchSyncKey, p.toWatchSync);
    var router := MessageUnder(m, RequestRouterKey, p.toRouter);
    var schemas, fields := ConfigSchemaUnder(m, p), MetadataUnder(m);
    if watchSync.None? then Failure(BadWatchSync)
    else if router.None? then Failure(BadRequestRouter)
    else if schemas.None? then Failure(BadConfigSchema)
    else if fields.None? then Failure(BadMetadata)
    else Success(d.(watchSync := watchSync.value, requestRouter := router.value, configSchema := schemas.value,
                    metadata := fields.value))
  }

  /** Decoding a record, part by part. */
  function Decoded(r: Record, p: Proto): Result<Descriptor, DecodeError> {
    if r.metadata.None? then Success(Blank(r.kind, r.id))
    else match ScalarPart(r.kind, r.id, r.metadata.value)
      case Failure(e) => Failure(e)
      case Success(d) => MessagePart(d, r.metadata.value, p)
  }

  method ToStringSlice(v: Any) returns (r: Option<seq<string>>)
    ensures r == ToStrings(v)
  {
    match v
    case Strings(strings) => return Some(strings);
    case List(items) =>
      var result: seq<string> := [];
      for i := 0 to |items|
        invariant |result| == i && forall k | 0 <= k < i :: items[k] == Str(result[k])
      {
        if !items[i].Str? {
          return None;
        }
        result := result + [items[i].s];
      }
      assert ToStrings(v).value == result;
      return Some(result);
    case Nil(goType) => return if goType in {StringSlice, AnySlice} then Some([]) else None;
    case _ => return None;
  }

  method DecodeConfigSchemas(v: Any, p: Proto) returns (r: Option<seq<Option<ConfigSchema>>>)
    ensures r == if SchemaEntries(v).Some? then DecodedSchemas(SchemaEntries(v).value, p) else None
  {
    var list := SchemaEntries(v);
    if list.None? {
      return None;
    }
    var entries := list.value;
    var schemas: seq<Option<ConfigSchema>> := [];
    for i := 0 to |entries|
      invariant DecodedSchemas(entries[..i], p) == Some(schemas)
    {
      var schema := DecodedEntry(entries[i], p);
      OneMoreDecoded(entries, i, schemas, p);
      if schema.None? {
        OneBadSchema(entries, i, p);
        return None;
      }
      schemas := schemas + [schema];
    }
    assert entries[..|entries|] == entries;
    return Some(schemas);
  }

  lemma OneMoreDecoded(entries: seq<Fields>, i: nat, schemas: seq<Option<ConfigSchema>>, p: Proto)
    requires i < |entries| && DecodedSchemas(entries[..i], p) == Some(schemas)
    ensures DecodedEntry(entries[i], p).Some? ==>
              DecodedSchemas(entries[..i + 1], p) == Some(schemas + [DecodedEntry(entries[i], p)])
  {
    assert entries[..i + 1][..i] == entries[..i];
  }

  lemma {:induction false} OneBadSchema(entries: seq<Fields>, i: nat, p: Proto)
    requires i < |entries| && DecodedEntry(entries[i], p).None?
    ensures DecodedSchemas(entries, p) == None
  {
    if i < |entries| - 1 {
      OneBadSchema(entries[..|entries| - 1], i, p);
    }
  }

  /** DecodeCapability: assigns the descriptor's fields one after another. */
  method DecodeCapability(r: Record, p: Proto) returns (result: Result<Descriptor, DecodeError>)
    ensures result == Decoded(r, p)
  {
    if r.metadata.None? {
      return Success(Blank(r.kind, r.id));
    }
    result := DecodeScalars(r.kind, r.id, r.metadata.value);
    if result.Success? {
      result := DecodeMessages(result.value, r.metadata.value, p);
    }
  }

  method DecodeScalars(kind: string, id: string, m: map<Key, Any>) returns (result: Result<Descriptor, DecodeError>)
    ensures result == ScalarPart(kind, id, m)
  {
    var d := Blank(kind, id);
    if DisplayName in m && m[DisplayName].Str? {
      d := d.(displayName := m[DisplayName].s);
    }
    if Description in m && m[Description].Str? {
      d := d.(description := m[Description].s);
    }
    if Subscriptions in m {
      var list := ToStringSlice(m[Subscriptions]);
      if list.None? {
        return Failure(BadList);
      }
      d := d.(subscriptions := list.value);
    }
    if AuthModes in m {
      var list := ToStringSlice(m[AuthModes]);
      if list.None? {
        return Failure(BadList);
      }
      d := d.(authModes := list.value);
    }
    if IconUrl in m && m[IconUrl].Str? {
      d := d.(iconUrl := m[IconUrl].s);
    }
    return Success(d);
  }

  method DecodeMessages(scalars: Descriptor, m: map<Key, Any>, p: Proto)
    returns (result: Result<Descriptor, DecodeError>)
    requires scalars.watchSync.None? && scalars.requestRouter.None?
    requires scalars.configSchema == [] && scalars.metadata.None?
    ensures result == MessagePart(scalars, m, p)
  {
    var d := scalars;
    if WatchSyncKey in m {
      var typed := p.toWatchSync(Stored(m[WatchSyncKey]));
      if typed.None? {
        return Failure(BadWatchSync);
      }
      d := d.(watchSync := typed);
    }
    if RequestRouterKey in m {
      var typed := p.toRouter(Stored(m[RequestRouterKey]));
      if typed.None? {
        return Failure(BadRequestRouter);
      }
      d := d.(requestRouter := typed);
    }
    if ConfigSchemaKey in m {
      var schemas := DecodeConfigSchemas(m[ConfigSchemaKey], p);
      if schemas.None? {
        return Failure(BadConfigSchema);
      }
      d := d.(configSchema := schemas.value);
    }
    if MetadataKey in m {
      var fields := ToStruct(m[MetadataKey]);
      if fields.None? {
        return Failure(BadMetadata);
      }
      d := d.(metadata := fields);
    }
    return Success(d);
  }
}
