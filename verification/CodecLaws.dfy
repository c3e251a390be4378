/** What the codec promises: nothing a record carries is lost, a JSON database in between changes
    nothing unless typed lists or nils are out of place, and what a newer SDK adds is ignored. */
module CodecLaws {
  import opened Codec
  import opened Descriptors
  import opened GoValues
  import opened Wrappers

  // ---------- config schemas ----------

  /** No members but those protojson writes for a schema. */
  ghost predicate HasSchemaNames(m: map<string, Any>) {
    forall name | name in m :: name in {"key", "title", "description", "json_schema", "required", "admin_form"}
  }

  /** The members protojson writes for a schema, whichever of the scalar defaults are filled in. */
  ghost predicate CarriesSchema(m: map<string, Any>, s: ConfigSchema, p: Proto) {
    && HasSchemaNames(m)
    && (if "key" in m then m["key"] == Str(s.key) else s.key == "")
    && (if "title" in m then m["title"] == Str(s.title) else s.title == "")
    && (if "description" in m then m["description"] == Str(s.description) else s.description == "")
    && (if "json_schema" in m then m["json_schema"] == Str(s.jsonSchema) else s.jsonSchema == "")
    && (if "required" in m then m["required"] == Bool(s.required) else !s.required)
    && (if "admin_form" in m then s.adminForm.Some? && m["admin_form"] == p.form(s.adminForm.value)
        else s.adminForm.None?)
  }

  lemma NamesDiffer()
    ensures "key" != "title" && "key" != "description" && "key" != "json_schema" && "key" != "required"
    ensures "title" != "description" && "title" != "json_schema" && "title" != "required"
    ensures "description" != "json_schema" && "description" != "required" && "json_schema" != "required"
    ensures "admin_form" !in {"key", "title", "description", "json_schema", "required"}
  {
  }

  lemma SchemaJsonNames(s: ConfigSchema, p: Proto)
    ensures HasSchemaNames(SchemaJson(s, p))
  {
  }

  lemma SchemaJsonHoldsStrings(s: ConfigSchema, p: Proto)
    ensures var m := SchemaJson(s, p);
            && (if "key" in m then m["key"] == Str(s.key) else s.key == "")
            && (if "title" in m then m["title"] == Str(s.title) else s.title == "")
  {
    NamesDiffer();
  }

  lemma SchemaJsonHoldsTexts(s: ConfigSchema, p: Proto)
    ensures var m := SchemaJson(s, p);
            && (if "description" in m then m["description"] == Str(s.description) else s.description == "")
            && (if "json_schema" in m then m["json_schema"] == Str(s.jsonSchema) else s.jsonSchema == "")
  {
    NamesDiffer();
  }

  lemma SchemaJsonCarries(s: ConfigSchema, p: Proto)
    ensures CarriesSchema(SchemaJson(s, p), s, p)
  {
    NamesDiffer();
    SchemaJsonNames(s, p);
    SchemaJsonHoldsStrings(s, p);
    SchemaJsonHoldsTexts(s, p);
  }

  lemma SchemaRecordCarries(s: ConfigSchema, p: Proto)
    ensures CarriesSchema(SchemaRecord(s, p), s, p)
  {
    NamesDiffer();
    SchemaJsonCarries(s, p);
  }

  function FilledFormIn(form: Option<AdminForm>): Option<AdminForm> {
    if form.Some? then Some(FilledForm(form.value)) else None
  }

  /** What protojson makes of a schema: nil entries of its form come back empty. */
  function FilledSchema(s: ConfigSchema): ConfigSchema { s.(adminForm := FilledFormIn(s.adminForm)) }

  lemma StringCarried(m: map<string, Any>, name: string, jsonName: string, s: string)
    requires if name in m then m[name] == Str(s) else s == ""
    requires jsonName == name || jsonName !in m
    ensures StringMember(StoredMap(m), name, jsonName) == Some(s)
  {
  }

  lemma BoolCarried(m: map<string, Any>, name: string, b: bool)
    requires if name in m then m[name] == Bool(b) else !b
    ensures BoolMember(StoredMap(m), name) == Some(b)
  {
  }

  lemma FormCarried(m: map<string, Any>, form: Option<AdminForm>, p: Proto)
    requires Lawful(p) && "adminForm" !in m
    requires if "admin_form" in m then form.Some? && m["admin_form"] == p.form(form.value) else form.None?
    ensures FormMember(StoredMap(m), p) == Some(FilledFormIn(form))
  {
    if "admin_form" in m {
      PlainIsKept(m["admin_form"]);
    }
  }

  lemma CarriedSchemaDecodes(m: map<string, Any>, s: ConfigSchema, p: Proto)
    requires Lawful(p) && CarriesSchema(m, s, p)
    ensures ToSchema(StoredMap(m), p) == Some(FilledSchema(s))
  {
    StringCarried(m, "key", "key", s.key);
    StringCarried(m, "title", "title", s.title);
    StringCarried(m, "description", "description", s.description);
    JsonNamesAbsent(m, s, p);
    StringCarried(m, "json_schema", "jsonSchema", s.jsonSchema);
    BoolCarried(m, "required", s.required);
    FormCarried(m, s.adminForm, p);
  }

  lemma JsonNamesAbsent(m: map<string, Any>, s: ConfigSchema, p: Proto)
    requires CarriesSchema(m, s, p)
    ensures "jsonSchema" !in m && "adminForm" !in m
  {
    assert "jsonSchema" !in {"key", "title", "description", "json_schema", "required", "admin_form"};
    assert "adminForm" !in {"key", "title", "description", "json_schema", "required", "admin_form"};
  }

  /** A schema comes back from its record, nil fields and sections of its form empty, and the default
      keys the record adds to what protojson writes change nothing. */
  lemma SchemaRoundTrip(s: ConfigSchema, p: Proto)
    requires Lawful(p)
    ensures ToSchema(StoredMap(SchemaRecord(s, p)), p) == Some(FilledSchema(s))
    ensures ToSchema(StoredMap(SchemaJson(s, p)), p) == Some(FilledSchema(s))
  {
    SchemaJsonCarries(s, p);
    SchemaRecordCarries(s, p);
    CarriedSchemaDecodes(SchemaJson(s, p), s, p);
    CarriedSchemaDecodes(SchemaRecord(s, p), s, p);
  }

  /** A nil entry of a schema list comes back as an empty schema. */
  function Filled(s: Option<ConfigSchema>): Option<ConfigSchema> {
    if s.Some? then Some(FilledSchema(s.value)) else Some(EMPTY_SCHEMA)
  }

  function FilledAll(schemas: seq<Option<ConfigSchema>>): seq<Option<ConfigSchema>> {
    if schemas == [] then [] else FilledAll(schemas[..|schemas| - 1]) + [Filled(schemas[|schemas| - 1])]
  }

  lemma {:induction false} SchemasRoundTrip(schemas: seq<Option<ConfigSchema>>, p: Proto)
    requires Lawful(p)
    ensures DecodedSchemas(EncodedSchemas(schemas, p), p) == Some(FilledAll(schemas))
  {
    if schemas != [] {
      var front, last := schemas[..|schemas| - 1], schemas[|schemas| - 1];
      SchemasRoundTrip(front, p);
      OneSchemaRoundTrip(last, p);
      DecodedSnoc(EncodedSchemas(front, p), Fields(EncodedSchema(last, p)), p);
    }
  }

  lemma DecodedSnoc(entries: seq<Fields>, e: Fields, p: Proto)
    ensures DecodedSchemas(entries + [e], p)
            == if DecodedSchemas(entries, p).Some? && DecodedEntry(e, p).Some?
               then Some(DecodedSchemas(entries, p).value + [DecodedEntry(e, p)]) else None
  {
    var all := entries + [e];
    assert all[..|all| - 1] == entries && all[|all| - 1] == e;
  }

  lemma OneSchemaRoundTrip(s: Option<ConfigSchema>, p: Proto)
    requires Lawful(p)
    ensures ToSchema(StoredMap(EncodedSchema(s, p)), p) == Filled(s)
  {
    if s.Some? {
      SchemaRoundTrip(s.value, p);
    } else {
      assert CarriesSchema(map[], EMPTY_SCHEMA, p);
      CarriedSchemaDecodes(map[], EMPTY_SCHEMA, p);
    }
  }

  // ---------- what a record holds ----------

  lemma {:induction false} EncodedAt(schemas: seq<Option<ConfigSchema>>, p: Proto, i: nat)
    requires i < |schemas|
    ensures EncodedSchemas(schemas, p)[i] == Fields(EncodedSchema(schemas[i], p))
  {
    if i < |schemas| - 1 {
      EncodedAt(schemas[..|schemas| - 1], p, i);
    }
  }

  /** The members of a schema that every record holds, whatever their values, and its form. */
  ghost predicate HoldsSchema(m: map<string, Any>, s: ConfigSchema, p: Proto) {
    && {"key", "title", "description", "json_schema", "required"} <= m.Keys
    && m["key"] == Str(s.key) && m["title"] == Str(s.title) && m["description"] == Str(s.description)
    && m["json_schema"] == Str(s.jsonSchema) && m["required"] == Bool(s.required)
    && HasSchemaNames(m)
    && (if s.adminForm.Some? then "admin_form" in m && m["admin_form"] == p.form(s.adminForm.value)
        else "admin_form" !in m)
  }

  lemma SchemaRecordHolds(s: ConfigSchema, p: Proto)
    ensures HoldsSchema(SchemaRecord(s, p), s, p)
  {
    NamesDiffer();
    SchemaRecordCarries(s, p);
  }

  /** Public compatibility: the record of a capability has an entry for each config schema, in order,
      and each holds key, title, description, json_schema and required with the schema's own values,
      defaults included, and the form exactly when there is one. */
  lemma RecordHoldsSchemas(d: Descriptor, m: map<Key, Any>, p: Proto, i: nat)
    requires IsMetadataOf(m, d, p) && i < |d.configSchema|
    ensures ConfigSchemaKey in m && m[ConfigSchemaKey].Maps? && |m[ConfigSchemaKey].maps| == |d.configSchema|
    ensures var f := m[ConfigSchemaKey].maps[i];
            f.Fields? && if d.configSchema[i].Some? then HoldsSchema(f.byName, d.configSchema[i].value, p)
                         else f.byName == map[]
  {
    EncodedHolds(d, m, p, ConfigSchemaKey);
    EncodedAt(d.configSchema, p, i);
    if d.configSchema[i].Some? {
      SchemaRecordHolds(d.configSchema[i].value, p);
    }
  }

  lemma EncodedHolds(d: Descriptor, m: map<Key, Any>, p: Proto, key: Key)
    requires IsMetadataOf(m, d, p)
    ensures key in m <==> Entry(d, key, p).Some?
    ensures key in m ==> Entry(d, key, p) == Some(m[key])
  {
    assert Rank(key) < 9 <==> !key.Foreign?;
  }

  /** What else the record holds: the two names always, and each other part exactly when the descriptor
      has it. */
  lemma RecordHolds(d: Descriptor, m: map<Key, Any>, p: Proto)
    requires IsMetadataOf(m, d, p)
    ensures DisplayName in m && m[DisplayName] == Str(d.displayName)
    ensures Description in m && m[Description] == Str(d.description)
    ensures if d.subscriptions == [] then Subscriptions !in m
            else Subscriptions in m && m[Subscriptions] == Strings(d.subscriptions)
    ensures if d.authModes == [] then AuthModes !in m else AuthModes in m && m[AuthModes] == Strings(d.authModes)
    ensures if d.iconUrl == "" then IconUrl !in m else IconUrl in m && m[IconUrl] == Str(d.iconUrl)
    ensures if d.watchSync.None? then WatchSyncKey !in m
            else WatchSyncKey in m && m[WatchSyncKey] == Map(p.watchSync(d.watchSync.value))
    ensures if d.requestRouter.None? then RequestRouterKey !in m
            else RequestRouterKey in m && m[RequestRouterKey] == Map(p.router(d.requestRouter.value))
    ensures if d.metadata.None? then MetadataKey !in m
            else MetadataKey in m && m[MetadataKey] == Map(AsMap(d.metadata.value))
    ensures ConfigSchemaKey in m <==> d.configSchema != []
    ensures forall name: string :: Foreign(name) !in m
  {
    EncodedHolds(d, m, p, DisplayName);
    EncodedHolds(d, m, p, Description);
    EncodedHolds(d, m, p, Subscriptions);
    EncodedHolds(d, m, p, AuthModes);
    EncodedHolds(d, m, p, IconUrl);
    EncodedHolds(d, m, p, WatchSyncKey);
    EncodedHolds(d, m, p, RequestRouterKey);
    EncodedHolds(d, m, p, ConfigSchemaKey);
    EncodedHolds(d, m, p, MetadataKey);
    forall name: string
      ensures Foreign(name) !in m
    {
      EncodedHolds(d, m, p, Foreign(name));
    }
  }

  // ---------- the round trip ----------

  /** What a record cannot carry: the network access descriptor; and nil entries of lists, which come
      back empty. */
  function Carried(d: Descriptor): Descriptor {
    d.(networkAccess := None, configSchema := FilledAll(d.configSchema), watchSync := CarriedWatchSync(d.watchSync))
  }

  function CarriedWatchSync(w: Option<WatchSync>): Option<WatchSync> {
    if w.Some? then Some(FilledWatchSync(w.value)) else None
  }

  lemma ScalarsRoundTrip(d: Descriptor, m: map<Key, Any>, p: Proto)
    requires IsMetadataOf(m, d, p)
    ensures ScalarPart(d.kind, d.id, m)
            == Success(Carried(d).(watchSync := None, requestRouter := None, configSchema := [], metadata := None))
  {
    assert DisplayName in m && Description in m;
    assert Subscriptions in m <==> d.subscriptions != [];
    assert AuthModes in m <==> d.authModes != [];
    assert IconUrl in m <==> d.iconUrl != "";
  }

  lemma MessageRoundTrips(d: Descriptor, m: map<Key, Any>, p: Proto)
    requires Lawful(p) && IsMetadataOf(m, d, p)
    ensures MessageUnder(m, WatchSyncKey, p.toWatchSync) == Some(CarriedWatchSync(d.watchSync))
    ensures MessageUnder(m, RequestRouterKey, p.toRouter) == Some(d.requestRouter)
  {
    assert WatchSyncKey in m <==> d.watchSync.Some?;
    assert RequestRouterKey in m <==> d.requestRouter.Some?;
    if d.watchSync.Some? {
      PlainIsKept(m[WatchSyncKey]);
    }
    if d.requestRouter.Some? {
      PlainIsKept(m[RequestRouterKey]);
    }
  }

  lemma ListsRoundTrip(d: Descriptor, m: map<Key, Any>, p: Proto)
    requires Lawful(p) && IsMetadataOf(m, d, p)
    ensures ConfigSchemaUnder(m, p) == Some(FilledAll(d.configSchema))
    ensures MetadataUnder(m) == Some(d.metadata)
  {
    assert ConfigSchemaKey in m <==> d.configSchema != [];
    assert MetadataKey in m <==> d.metadata.Some?;
    if d.configSchema != [] {
      assert m[ConfigSchemaKey] == Maps(EncodedSchemas(d.configSchema, p));
      SchemasRoundTrip(d.configSchema, p);
    } else {
      assert FilledAll(d.configSchema) == [];
    }
    if d.metadata.Some? {
      StructRoundTrip(d.metadata.value);
    }
  }

  /** Decoding the record made from any descriptor gives the descriptor back, but for the network
      access part the record does not carry and nil entries of lists, which come back empty. */
  lemma RecordRoundTrip(d: Descriptor, r: Record, p: Proto)
    requires Lawful(p) && IsRecordOf(r, d, p)
    ensures Decoded(r, p) == Success(Carried(d))
  {
    ScalarsRoundTrip(d, r.metadata.value, p);
    MessageRoundTrips(d, r.metadata.value, p);
    ListsRoundTrip(d, r.metadata.value, p);
  }

  // ---------- through a JSON database ----------

  /** The record as a JSON database gives it back. */
  function StoredRecord(r: Record): Record {
    if r.metadata.None? then r else r.(metadata := Some(map k | k in r.metadata.value :: Stored(r.metadata.value[k])))
  }

  /** A record as its maker holds it, or as the database gives it back. */
  datatype Form = Fresh | FromJson

  /** What the decoder takes for a list of strings. */
  predicate IsStringList(v: Any, form: Form) {
    match v
    case Strings(_) => true
    case List(items) => forall i | 0 <= i < |items| :: items[i].Str?
    case Maps(maps) => form == FromJson && maps == []
    case Nil(goType) => form == Fresh && goType in {StringSlice, AnySlice}
    case _ => false
  }

  predicate IsSchemaEntry(f: Fields, form: Form, p: Proto) {
    if f.NilFields? then form == FromJson else ToSchema(StoredMap(f.byName), p).Some?
  }

  predicate AreSchemaEntries(entries: seq<Fields>, form: Form, p: Proto) {
    forall i | 0 <= i < |entries| :: IsSchemaEntry(entries[i], form, p)
  }

  /** What it takes for a list of config schemas. */
  predicate IsSchemaList(v: Any, form: Form, p: Proto) {
    match v
    case Strings(_) => form == FromJson
    case Nil(goType) => form == Fresh && goType in {MapSlice, AnySlice}
    case _ => SchemaEntries(v).Some? && AreSchemaEntries(SchemaEntries(v).value, form, p)
  }

  /** What it takes for free-form metadata: a fresh map must be without typed lists. */
  ghost predicate IsMetadata(v: Any, form: Form) { form == Fresh && v.Map? ==> Convertible(v) }

  predicate GoodLists(m: map<Key, Any>, form: Form) {
    && (Subscriptions in m ==> IsStringList(m[Subscriptions], form))
    && (AuthModes in m ==> IsStringList(m[AuthModes], form))
  }

  predicate GoodMessages(m: map<Key, Any>, p: Proto) {
    && (WatchSyncKey in m ==> p.toWatchSync(Stored(m[WatchSyncKey])).Some?)
    && (RequestRouterKey in m ==> p.toRouter(Stored(m[RequestRouterKey])).Some?)
  }

  predicate GoodSchemas(m: map<Key, Any>, form: Form, p: Proto) {
    ConfigSchemaKey in m ==> IsSchemaList(m[ConfigSchemaKey], form, p)
  }

  /** The records the decoder accepts. */
  ghost predicate Acceptable(m: map<Key, Any>, form: Form, p: Proto) {
    && GoodLists(m, form) && GoodMessages(m, p) && GoodSchemas(m, form, p)
    && (MetadataKey in m ==> IsMetadata(m[MetadataKey], form))
  }

  /** Under the free-form metadata key there is no typed list and no nil, at any depth. */
  ghost predicate PlainMetadata(m: map<Key, Any>) { MetadataKey in m && m[MetadataKey].Map? ==> Plain(m[MetadataKey]) }

  /** Typed lists and nils are only where the database may turn them into JSON unnoticed. */
  ghost predicate InPlace(m: map<Key, Any>) {
    && (Subscriptions in m ==> ListInPlace(m[Subscriptions]))
    && (AuthModes in m ==> ListInPlace(m[AuthModes]))
    && (ConfigSchemaKey in m ==> SchemasInPlace(m[ConfigSchemaKey]))
    && PlainMetadata(m)
  }

  predicate ListInPlace(v: Any) { v != Maps([]) && v != Nil(StringSlice) && v != Nil(AnySlice) }

  predicate SchemasInPlace(v: Any) {
    && !v.Strings? && v != Nil(MapSlice) && v != Nil(AnySlice)
    && (SchemaEntries(v).Some? ==> NilFields !in SchemaEntries(v).value)
  }

  /** The first part that either record is refused for is refused in both, or neither is refused and
      the metadata is plain. */
  ghost predicate SameOutcome(m: map<Key, Any>, p: Proto) {
    && (GoodLists(m, Fresh) <==> GoodLists(m, FromJson))
    && (GoodLists(m, Fresh) && GoodMessages(m, p) ==>
          && (GoodSchemas(m, Fresh, p) <==> GoodSchemas(m, FromJson, p))
          && (GoodSchemas(m, Fresh, p) ==> PlainMetadata(m)))
  }

  lemma StringsFresh(v: Any)
    ensures ToStrings(v).Some? <==> IsStringList(v, Fresh)
  {
  }

  lemma StringsStored(v: Any)
    ensures ToStrings(Stored(v)).Some? <==> IsStringList(v, FromJson)
    ensures IsStringList(v, Fresh) && IsStringList(v, FromJson) ==> ToStrings(Stored(v)) == ToStrings(v)
  {
    match v
    case Strings(strings) => assert ToStrings(Stored(v)).value == strings;
    case Maps(maps) => assert maps != [] ==> !Stored(v).items[0].Str?;
    case List(items) =>
      assert forall i | 0 <= i < |items| :: Stored(v).items[i].Str? <==> items[i].Str?;
      if ToStrings(v).Some? {
        assert ToStrings(Stored(v)).value == ToStrings(v).value;
      }
    case _ =>
  }

  lemma ListsStored(m: map<Key, Any>, n: map<Key, Any>, key: Key)
    requires n == map k | k in m :: Stored(m[k])
    ensures StringsUnder(m, key).Some? <==> (key in m ==> IsStringList(m[key], Fresh))
    ensures StringsUnder(n, key).Some? <==> (key in m ==> IsStringList(m[key], FromJson))
    ensures StringsUnder(m, key).Some? && StringsUnder(n, key).Some? ==> StringsUnder(n, key) == StringsUnder(m, key)
  {
    if key in m {
      StringsFresh(m[key]);
      StringsStored(m[key]);
    }
  }

  lemma ScalarsStored(kind: string, id: string, m: map<Key, Any>, n: map<Key, Any>)
    requires n == map k | k in m :: Stored(m[k])
    ensures ScalarPart(kind, id, m).Success? <==> GoodLists(m, Fresh)
    ensures ScalarPart(kind, id, n).Success? <==> GoodLists(m, FromJson)
    ensures ScalarPart(kind, id, n) == ScalarPart(kind, id, m) <==> (GoodLists(m, Fresh) <==> GoodLists(m, FromJson))
  {
    ListsStored(m, n, Subscriptions);
    ListsStored(m, n, AuthModes);
    assert StringUnder(n, DisplayName) == StringUnder(m, DisplayName);
    assert StringUnder(n, Description) == StringUnder(m, Description);
    assert StringUnder(n, IconUrl) == StringUnder(m, IconUrl);
  }

  lemma MessageStored<T>(m: map<Key, Any>, n: map<Key, Any>, key: Key, decode: Any -> Option<T>)
    requires n == map k | k in m :: Stored(m[k])
    ensures MessageUnder(n, key, decode) == MessageUnder(m, key, decode)
  {
    if key in m {
      StoredTwice(m[key]);
    }
  }

  /** What an entry is in the stored list: null, for a nil map, is read as an empty map. */
  function StoredEntry(f: Fields): Fields { if f.NilFields? then Fields(map[]) else Fields(StoredMap(f.byName)) }

  function StoredEntries(entries: seq<Fields>): seq<Fields> {
    seq(|entries|, i requires 0 <= i < |entries| => StoredEntry(entries[i]))
  }

  lemma EmptyEntryIsSchema(p: Proto)
    ensures ToSchema(StoredMap(map[]), p) == Some(EMPTY_SCHEMA)
  {
  }

  lemma EntryStored(f: Fields, p: Proto)
    ensures DecodedEntry(StoredEntry(f), p).Some? <==> IsSchemaEntry(f, FromJson, p)
    ensures f.Fields? ==> DecodedEntry(StoredEntry(f), p) == DecodedEntry(f, p)
  {
    EmptyEntryIsSchema(p);
    if f.Fields? {
      StoredMapTwice(f.byName);
    }
  }

  lemma {:induction false} SchemasFresh(entries: seq<Fields>, p: Proto)
    ensures DecodedSchemas(entries, p).Some? <==> AreSchemaEntries(entries, Fresh, p)
  {
    if entries != [] {
      var front, last := entries[..|entries| - 1], entries[|entries| - 1];
      SchemasFresh(front, p);
      EntriesSnoc(front, last, Fresh, p);
      assert entries == front + [last];
    }
  }

  lemma EntriesSnoc(entries: seq<Fields>, e: Fields, form: Form, p: Proto)
    ensures AreSchemaEntries(entries + [e], form, p)
            <==> AreSchemaEntries(entries, form, p) && IsSchemaEntry(e, form, p)
  {
    var all := entries + [e];
    assert all[|entries|] == e && forall i | 0 <= i < |entries| :: all[i] == entries[i];
  }

  lemma {:induction false} SchemasStored(entries: seq<Fields>, p: Proto)
    ensures DecodedSchemas(StoredEntries(entries), p).Some? <==> AreSchemaEntries(entries, FromJson, p)
    ensures NilFields !in entries ==> DecodedSchemas(StoredEntries(entries), p) == DecodedSchemas(entries, p)
  {
    if entries == [] {
      assert StoredEntries(entries) == [];
    } else {
      var front, last := entries[..|entries| - 1], entries[|entries| - 1];
      SchemasStored(front, p);
      EntryStored(last, p);
      EntriesSnoc(front, last, FromJson, p);
      StoredEntriesSnoc(front, last);
      DecodedSnoc(StoredEntries(front), StoredEntry(last), p);
      assert entries == front + [last];
    }
  }

  lemma StoredEntriesSnoc(entries: seq<Fields>, e: Fields)
    ensures StoredEntries(entries + [e]) == StoredEntries(entries) + [StoredEntry(e)]
  {
  }

  lemma EntriesStored(v: Any)
    requires v.Maps? || v.List?
    ensures SchemaEntries(v).Some? && SchemaEntries(Stored(v)).Some?
    ensures SchemaEntries(Stored(v)).value == StoredEntries(SchemaEntries(v).value)
  {
    var entries := SchemaEntries(v).value;
    forall i | 0 <= i < |entries|
      ensures SchemaEntries(Stored(v)).value[i] == StoredEntry(entries[i])
    {
      if v.Maps? {
        assert Stored(v).items[i] == StoredFields(v.maps[i]);
      } else {
        FieldsStored(v.items[i]);
      }
    }
  }

  lemma FieldsStored(v: Any)
    ensures ToFields(Stored(v)) == StoredEntry(ToFields(v))
  {
    assert StoredMap(map[]) == map[];
  }

  function SchemasIn(v: Any, p: Proto): Option<seq<Option<ConfigSchema>>> {
    if SchemaEntries(v).Some? then DecodedSchemas(SchemaEntries(v).value, p) else None
  }

  lemma StringsAreSchemas(v: Any, p: Proto)
    requires v.Strings?
    ensures SchemasIn(Stored(v), p).Some?
  {
    var entries := SchemaEntries(Stored(v)).value;
    EmptyEntryIsSchema(p);
    assert forall i | 0 <= i < |entries| :: entries[i] == Fields(map[]);
    SchemasFresh(entries, p);
  }

  lemma SchemaListStored(v: Any, p: Proto)
    ensures SchemasIn(v, p).Some? <==> IsSchemaList(v, Fresh, p)
    ensures SchemasIn(Stored(v), p).Some? <==> IsSchemaList(v, FromJson, p)
    ensures IsSchemaList(v, Fresh, p) && IsSchemaList(v, FromJson, p) ==> SchemasIn(Stored(v), p) == SchemasIn(v, p)
  {
    if v.Strings? {
      StringsAreSchemas(v, p);
    } else if v.Maps? || v.List? {
      EntriesStored(v);
      var entries := SchemaEntries(v).value;
      SchemasFresh(entries, p);
      SchemasStored(entries, p);
      if AreSchemaEntries(entries, Fresh, p) {
        assert NilFields !in entries;
      }
    }
  }

  lemma ConfigSchemaStored(m: map<Key, Any>, n: map<Key, Any>, p: Proto)
    requires n == map k | k in m :: Stored(m[k])
    ensures ConfigSchemaUnder(m, p).Some? <==> GoodSchemas(m, Fresh, p)
    ensures ConfigSchemaUnder(n, p).Some? <==> GoodSchemas(m, FromJson, p)
    ensures GoodSchemas(m, Fresh, p) && GoodSchemas(m, FromJson, p) ==>
              ConfigSchemaUnder(n, p) == ConfigSchemaUnder(m, p)
  {
    if ConfigSchemaKey in m {
      SchemaListStored(m[ConfigSchemaKey], p);
    }
  }

  lemma StructOf(v: Any)
    ensures v.Map? ==> NewValue(v) == if ToStruct(v).Some? then Some(StructValue(ToStruct(v).value)) else None
    ensures !v.Map? ==> ToStruct(v) == Some(map[])
  {
  }

  /** Stored, the free-form metadata can always be decoded; fresh, exactly without typed lists; and to
      the same struct exactly when it is plain. */
  lemma MetadataStored(m: map<Key, Any>, n: map<Key, Any>)
    requires n == map k | k in m :: Stored(m[k])
    ensures MetadataUnder(n).Some?
    ensures MetadataUnder(m).Some? <==> (MetadataKey in m ==> IsMetadata(m[MetadataKey], Fresh))
    ensures MetadataUnder(n) == MetadataUnder(m) <==> PlainMetadata(m)
  {
    if MetadataKey in m {
      var v := m[MetadataKey];
      StructsAreOfConvertibles(v);
      JsonKeepsStructs(v);
      StructOf(v);
      StructOf(Stored(v));
    }
  }

  lemma MessagesGood(m: map<Key, Any>, p: Proto)
    ensures GoodMessages(m, p)
            <==> && MessageUnder(m, WatchSyncKey, p.toWatchSync).Some?
                 && MessageUnder(m, RequestRouterKey, p.toRouter).Some?
  {
  }

  lemma MessagePartStored(d: Descriptor, m: map<Key, Any>, n: map<Key, Any>, p: Proto)
    requires n == map k | k in m :: Stored(m[k])
    ensures MessagePart(d, n, p) == MessagePart(d, m, p)
            <==> (GoodMessages(m, p) ==>
                    && (GoodSchemas(m, Fresh, p) <==> GoodSchemas(m, FromJson, p))
                    && (GoodSchemas(m, Fresh, p) ==> PlainMetadata(m)))
    ensures MessagePart(d, m, p).Success?
            <==> && GoodMessages(m, p) && GoodSchemas(m, Fresh, p)
                 && (MetadataKey in m ==> IsMetadata(m[MetadataKey], Fresh))
    ensures MessagePart(d, n, p).Success? <==> GoodMessages(m, p) && GoodSchemas(m, FromJson, p)
  {
    MessageStored(m, n, WatchSyncKey, p.toWatchSync);
    MessageStored(m, n, RequestRouterKey, p.toRouter);
    MessagesGood(m, p);
    ConfigSchemaStored(m, n, p);
    MetadataStored(m, n);
  }

  /** Which records are accepted, as made and as a JSON database gives them back. */
  lemma AcceptedRecords(r: Record, p: Proto)
    ensures Decoded(r, p).Success? <==> r.metadata.None? || Acceptable(r.metadata.value, Fresh, p)
    ensures Decoded(StoredRecord(r), p).Success? <==> r.metadata.None? || Acceptable(r.metadata.value, FromJson, p)
  {
    if r.metadata.Some? {
      var m, n := r.metadata.value, StoredRecord(r).metadata.value;
      ScalarsStored(r.kind, r.id, m, n);
      if ScalarPart(r.kind, r.id, m).Success? {
        MessagePartStored(ScalarPart(r.kind, r.id, m).value, m, n, p);
      }
      if ScalarPart(r.kind, r.id, n).Success? {
        MessagePartStored(ScalarPart(r.kind, r.id, n).value, m, n, p);
      }
    }
  }

  /** A refused record is refused for the first of its parts that is bad: lists, watch sync, request
      router, config schemas, metadata. */
  lemma FirstBadPartIsNamed(r: Record, p: Proto)
    requires r.metadata.Some? && Decoded(r, p).Failure?
    ensures var m := r.metadata.value;
            Decoded(r, p).error
            == if !GoodLists(m, Fresh) then BadList
               else if WatchSyncKey in m && p.toWatchSync(Stored(m[WatchSyncKey])).None? then BadWatchSync
               else if RequestRouterKey in m && p.toRouter(Stored(m[RequestRouterKey])).None? then BadRequestRouter
               else if !GoodSchemas(m, Fresh, p) then BadConfigSchema
               else BadMetadata
  {
    var m, n := r.metadata.value, StoredRecord(r).metadata.value;
    ScalarsStored(r.kind, r.id, m, n);
    ConfigSchemaStored(m, n, p);
  }

  /** The string under a key of a record; anything else there, or nothing, counts as empty. */
  predicate IsStringUnder(t: string, m: map<Key, Any>, key: Key) {
    if key in m && m[key].Str? then m[key] == Str(t) else t == ""
  }

  /** What the decoded descriptor says of itself: type and id of the record, the strings the metadata
      has, nothing where it has nothing, and never a network access part; without metadata nothing at
      all but type and id. */
  lemma DecodedKeepsIdentity(r: Record, p: Proto)
    ensures r.metadata.None? ==>
              Decoded(r, p) == Success(Descriptor(r.kind, r.id, "", "", [], [], "", None, None, None, [], None))
    ensures Decoded(r, p).Success? ==>
              var d := Decoded(r, p).value;
              && d.kind == r.kind && d.id == r.id && d.networkAccess.None?
              && (r.metadata.Some? ==>
                    var m := r.metadata.value;
                    && IsStringUnder(d.displayName, m, DisplayName) && IsStringUnder(d.description, m, Description)
                    && IsStringUnder(d.iconUrl, m, IconUrl)
                    && (Subscriptions !in m ==> d.subscriptions == []) && (AuthModes !in m ==> d.authModes == [])
                    && (WatchSyncKey in m <==> d.watchSync.Some?) && (RequestRouterKey in m <==> d.requestRouter.Some?)
                    && (ConfigSchemaKey !in m ==> d.configSchema == []) && (MetadataKey in m <==> d.metadata.Some?))
  {
  }

  lemma {:induction false} DecodedAt(entries: seq<Fields>, p: Proto, i: nat)
    requires DecodedSchemas(entries, p).Some? && i < |entries|
    ensures |DecodedSchemas(entries, p).value| == |entries|
    ensures DecodedSchemas(entries, p).value[i] == DecodedEntry(entries[i], p)
  {
    DecodedLength(entries, p);
    if i < |entries| - 1 {
      DecodedLength(entries[..|entries| - 1], p);
      DecodedAt(entries[..|entries| - 1], p, i);
    } else {
      DecodedLength(entries[..|entries| - 1], p);
    }
  }

  lemma {:induction false} DecodedLength(entries: seq<Fields>, p: Proto)
    requires DecodedSchemas(entries, p).Some?
    ensures |DecodedSchemas(entries, p).value| == |entries|
  {
    if entries != [] {
      DecodedLength(entries[..|entries| - 1], p);
    }
  }

  /** An accepted list of config schemas gives one schema for each entry, in order: a map is read as a
      schema, and an entry of any other type as an empty one. */
  lemma EachEntryDecodes(v: Any, p: Proto, i: nat)
    requires v.List? && SchemasIn(v, p).Some? && i < |v.items|
    ensures |SchemasIn(v, p).value| == |v.items|
    ensures v.items[i] != Nil(AnyMap)
    ensures SchemasIn(v, p).value[i]
            == if v.items[i].Map? then ToSchema(StoredMap(v.items[i].fields), p) else Some(EMPTY_SCHEMA)
  {
    var entries := SchemaEntries(v).value;
    DecodedAt(entries, p, i);
    SchemasFresh(entries, p);
    assert IsSchemaEntry(entries[i], Fresh, p);
    EmptyEntryIsSchema(p);
  }

  /** When a JSON database in between changes nothing, errors included. */
  lemma StoredRecordDecodes(r: Record, p: Proto)
    ensures Decoded(StoredRecord(r), p) == Decoded(r, p) <==> r.metadata.None? || SameOutcome(r.metadata.value, p)
  {
    if r.metadata.Some? {
      var m, n := r.metadata.value, StoredRecord(r).metadata.value;
      ScalarsStored(r.kind, r.id, m, n);
      if ScalarPart(r.kind, r.id, m).Success? && ScalarPart(r.kind, r.id, n).Success? {
        MessagePartStored(ScalarPart(r.kind, r.id, m).value, m, n, p);
      }
    }
  }

  lemma ListInPlaceIsKept(v: Any)
    ensures ListInPlace(v) ==> (IsStringList(v, Fresh) <==> IsStringList(v, FromJson))
    ensures IsStringList(v, Fresh) && IsStringList(v, FromJson) ==> ListInPlace(v)
  {
  }

  lemma ListsInPlaceAreKept(m: map<Key, Any>)
    ensures InPlace(m) ==> (GoodLists(m, Fresh) <==> GoodLists(m, FromJson))
    ensures GoodLists(m, Fresh) && GoodLists(m, FromJson) && Subscriptions in m ==> ListInPlace(m[Subscriptions])
    ensures GoodLists(m, Fresh) && GoodLists(m, FromJson) && AuthModes in m ==> ListInPlace(m[AuthModes])
  {
    if Subscriptions in m {
      ListInPlaceIsKept(m[Subscriptions]);
    }
    if AuthModes in m {
      ListInPlaceIsKept(m[AuthModes]);
    }
  }

  lemma SchemasInPlaceAreKept(v: Any, p: Proto)
    ensures SchemasInPlace(v) ==> (IsSchemaList(v, Fresh, p) <==> IsSchemaList(v, FromJson, p))
    ensures IsSchemaList(v, Fresh, p) && IsSchemaList(v, FromJson, p) ==> SchemasInPlace(v)
  {
  }

  lemma PlainMetadataIsMetadata(m: map<Key, Any>)
    ensures PlainMetadata(m) && MetadataKey in m ==> IsMetadata(m[MetadataKey], Fresh)
  {
    if PlainMetadata(m) && MetadataKey in m && m[MetadataKey].Map? {
      PlainIsConvertible(m[MetadataKey]);
    }
  }

  lemma InPlaceMetadata(m: map<Key, Any>, p: Proto)
    ensures InPlace(m) ==> SameOutcome(m, p)
    ensures Acceptable(m, Fresh, p) && SameOutcome(m, p) <==> Acceptable(m, FromJson, p) && InPlace(m)
  {
    ListsInPlaceAreKept(m);
    if ConfigSchemaKey in m {
      SchemasInPlaceAreKept(m[ConfigSchemaKey], p);
    }
    PlainMetadataIsMetadata(m);
  }

  /** The short form: with typed lists and nils in place nothing changes, and only then does a record
      give the same descriptor before and after. */
  lemma InPlaceIsKept(r: Record, p: Proto)
    ensures r.metadata.None? || InPlace(r.metadata.value) ==> Decoded(StoredRecord(r), p) == Decoded(r, p)
    ensures Decoded(r, p).Success? && Decoded(StoredRecord(r), p) == Decoded(r, p)
            <==> Decoded(StoredRecord(r), p).Success? && (r.metadata.None? || InPlace(r.metadata.value))
  {
    StoredRecordDecodes(r, p);
    AcceptedRecords(r, p);
    if r.metadata.Some? {
      InPlaceMetadata(r.metadata.value, p);
    }
  }

  /** Out of place, the database can turn a refusal into an acceptance: a []string for config schemas. */
  lemma StoringCanRepair(kind: string, id: string, p: Proto)
    ensures var r := Record(kind, id, Some(map[ConfigSchemaKey := Strings(["a"])]));
            Decoded(r, p) == Failure(BadConfigSchema) && Decoded(StoredRecord(r), p).Success?
  {
    var m: map<Key, Any> := map[ConfigSchemaKey := Strings(["a"])];
    AcceptedRecords(Record(kind, id, Some(m)), p);
    assert Acceptable(m, FromJson, p) && !GoodSchemas(m, Fresh, p);
  }

  /** And an acceptance into a refusal: a nil []string for auth modes. */
  lemma StoringCanSpoil(kind: string, id: string, p: Proto)
    ensures var r := Record(kind, id, Some(map[AuthModes := Nil(StringSlice)]));
            Decoded(r, p).Success? && Decoded(StoredRecord(r), p) == Failure(BadList)
  {
    var m: map<Key, Any> := map[AuthModes := Nil(StringSlice)];
    AcceptedRecords(Record(kind, id, Some(m)), p);
    assert Acceptable(m, Fresh, p) && !GoodLists(m, FromJson);
  }

  lemma {:induction false} EncodedAreNotNil(schemas: seq<Option<ConfigSchema>>, p: Proto)
    ensures NilFields !in EncodedSchemas(schemas, p)
  {
    if schemas != [] {
      EncodedAreNotNil(schemas[..|schemas| - 1], p);
    }
  }

  /** The encoder puts typed lists in place only. */
  lemma EncodedInPlace(d: Descriptor, m: map<Key, Any>, p: Proto)
    requires IsMetadataOf(m, d, p)
    ensures InPlace(m)
  {
    EncodedAreNotNil(d.configSchema, p);
    if d.metadata.Some? {
      StructRoundTrip(d.metadata.value);
    }
    EncodedHolds(d, m, p, Subscriptions);
    EncodedHolds(d, m, p, AuthModes);
    EncodedHolds(d, m, p, ConfigSchemaKey);
    EncodedHolds(d, m, p, MetadataKey);
  }

  /** So a descriptor also comes back from its record after a JSON database held it. */
  lemma StoredRoundTrip(d: Descriptor, r: Record, p: Proto)
    requires Lawful(p) && IsRecordOf(r, d, p)
    ensures Decoded(StoredRecord(r), p) == Success(Carried(d))
  {
    RecordRoundTrip(d, r, p);
    EncodedInPlace(d, r.metadata.value, p);
    InPlaceIsKept(r, p);
  }

  // ---------- records from a newer SDK ----------

  /** Keys this SDK does not use change nothing, whatever they hold. */
  lemma ForeignKeysAreIgnored(r: Record, name: string, v: Any, p: Proto)
    requires r.metadata.Some?
    ensures Decoded(r.(metadata := Some(r.metadata.value[Foreign(name) := v])), p) == Decoded(r, p)
  {
    var m := r.metadata.value;
    var n := m[Foreign(name) := v];
    assert ScalarPart(r.kind, r.id, n) == ScalarPart(r.kind, r.id, m);
    assert ConfigSchemaUnder(n, p) == ConfigSchemaUnder(m, p) && MetadataUnder(n) == MetadataUnder(m);
    assert MessageUnder(n, WatchSyncKey, p.toWatchSync) == MessageUnder(m, WatchSyncKey, p.toWatchSync);
    assert MessageUnder(n, RequestRouterKey, p.toRouter) == MessageUnder(m, RequestRouterKey, p.toRouter);
  }

  lemma OtherMember(m: map<string, Any>, name: string, v: Any, known: string, jsonName: string)
    requires name != known && name != jsonName
    ensures Member(m[name := v], known, jsonName) == Member(m, known, jsonName)
  {
  }

  /** Nor does a schema member this SDK does not know. */
  lemma UnknownSchemaMemberIsIgnored(m: map<string, Any>, name: string, v: Any, p: Proto)
    requires name !in {"key", "title", "description", "json_schema", "jsonSchema", "required"}
    requires name !in {"admin_form", "adminForm"}
    ensures ToSchema(m[name := v], p) == ToSchema(m, p)
  {
    OtherMember(m, name, v, "key", "key");
    OtherMember(m, name, v, "title", "title");
    OtherMember(m, name, v, "description", "description");
    OtherMember(m, name, v, "json_schema", "jsonSchema");
    OtherMember(m, name, v, "required", "required");
    OtherMember(m, name, v, "admin_form", "adminForm");
  }

  // ---------- members of a schema ----------

  /** Texts are strings; null counts as absent and any other type is refused. */
  lemma TextMembers(m: map<string, Any>, name: string, v: Any, p: Proto)
    requires name in {"key", "title", "description", "json_schema"}
    requires v != Null && !v.Str?
    ensures ToSchema(m[name := v], p) == None
  {
    NamesDiffer();
  }

  /** Null is the same as absent, under every name. */
  lemma NullMembers(m: map<string, Any>, name: string, p: Proto)
    requires name in {"key", "title", "description", "json_schema", "required", "admin_form"} && name !in m
    requires "jsonSchema" !in m && "adminForm" !in m
    ensures ToSchema(m[name := Null], p) == ToSchema(m, p)
  {
    NamesDiffer();
    var n := m[name := Null];
    MemberOfNull(m, name, "key", "key");
    MemberOfNull(m, name, "title", "title");
    MemberOfNull(m, name, "description", "description");
    MemberOfNull(m, name, "json_schema", "jsonSchema");
    MemberOfNull(m, name, "required", "required");
    MemberOfNull(m, name, "admin_form", "adminForm");
  }

  lemma MemberOfNull(m: map<string, Any>, name: string, known: string, jsonName: string)
    requires name !in m && (jsonName == known || (jsonName !in m && name != jsonName))
    ensures Member(m[name := Null], known, jsonName) == Member(m, known, jsonName)
  {
  }

  /** The JSON names of the two members that have one of their own stand for the proto names. */
  lemma JsonNames(m: map<string, Any>, v: Any, w: Any, p: Proto)
    requires "json_schema" !in m && "jsonSchema" !in m && "admin_form" !in m && "adminForm" !in m
    ensures ToSchema(m["jsonSchema" := v]["adminForm" := w], p) == ToSchema(m["json_schema" := v]["admin_form" := w], p)
  {
    OwnJsonNames();
    var a, b := m["jsonSchema" := v]["adminForm" := w], m["json_schema" := v]["admin_form" := w];
    assert Member(a, "json_schema", "jsonSchema") == Some(v) == Member(b, "json_schema", "jsonSchema");
    assert Member(a, "admin_form", "adminForm") == Some(w) == Member(b, "admin_form", "adminForm");
    SharedMember(a, b, m, "key");
    SharedMember(a, b, m, "title");
    SharedMember(a, b, m, "description");
    SharedMember(a, b, m, "required");
  }

  /** Both names of a member at once are refused. */
  lemma BothNames(m: map<string, Any>, p: Proto)
    requires ("json_schema" in m && "jsonSchema" in m) || ("admin_form" in m && "adminForm" in m)
    ensures ToSchema(m, p) == None
  {
    OwnJsonNames();
  }

  lemma SharedMember(a: map<string, Any>, b: map<string, Any>, m: map<string, Any>, name: string)
    requires (name in a <==> name in m) && (name in b <==> name in m)
    requires name in m ==> a[name] == m[name] == b[name]
    ensures Member(a, name, name) == Member(b, name, name)
  {
  }

  lemma OwnJsonNames()
    ensures {"key", "title", "description", "required"} !! {"json_schema", "jsonSchema", "admin_form", "adminForm"}
    ensures "json_schema" != "jsonSchema" && "admin_form" != "adminForm" && "jsonSchema" != "adminForm"
    ensures "json_schema" != "adminForm" && "json_schema" != "admin_form" && "jsonSchema" != "admin_form"
  {
  }
}
