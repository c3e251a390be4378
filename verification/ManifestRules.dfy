/**
 What makes a manifest acceptable, said without any order of checks: conditions on the elements
 each list contains and on how often, and on which names refer to what.
 */
module ManifestRules {
  import opened Descriptors
  import opened Lists
  import opened Slug
  import opened Text
  import opened Wrappers

  const MAX_DISPLAY_NAME: nat := 120
  const MAX_SUMMARY: nat := 240
  const MAX_MARKDOWN_BYTES: nat := 32 * 1024
  const MAX_URL_BYTES: nat := 2048
  const MAX_IDENTITY: nat := 120
  const MAX_WORDING_LABEL: nat := 24
  const MAX_WORDING_DETAIL: nat := 140

  /** A URL as net/url parses it. */
  datatype Url = Url(scheme: string, host: string, hasUser: bool)

  /** A JSON schema as encoding/json reads its type and the types of its properties. */
  datatype SchemaShape = Malformed | Shape(kind: string, properties: map<string, string>)

  /** The two parsers the validator calls. */
  datatype Libraries = Libraries(parseUrl: string -> Option<Url>, parseSchema: string -> SchemaShape)

  // ---------- presentation and wording ----------

  predicate IsSingleLine(s: string, limit: nat) {
    IsTrimmed(s) && |s| <= limit && forall i | 0 <= i < |s| :: !IsControl(s[i])
  }

  predicate IsMarkdown(s: string) {
    Utf8Length(s) <= MAX_MARKDOWN_BYTES && forall i | 0 <= i < |s| :: IsControl(s[i]) ==> s[i] in "\n\r\t"
  }

  predicate IsPresentationUrl(s: string, lib: Libraries) {
    s != "" ==>
      && Utf8Length(s) <= MAX_URL_BYTES && IsTrimmed(s)
      && (forall i | 0 <= i < |s| :: s[i] != ' ' && !IsControl(s[i]))
      && lib.parseUrl(s).Some?
      && var url := lib.parseUrl(s).value; url.scheme in {"http", "https"} && url.host != "" && !url.hasUser
  }

  predicate GoodPresentation(p: Presentation, lib: Libraries) {
    && IsSingleLine(p.displayName, MAX_DISPLAY_NAME) && IsSingleLine(p.summary, MAX_SUMMARY)
    && IsSingleLine(p.publisherName, MAX_IDENTITY) && IsSingleLine(p.licenseSpdx, MAX_IDENTITY)
    && IsMarkdown(p.descriptionMarkdown) && IsMarkdown(p.setupMarkdown)
    && forall u | u in {p.homepageUrl, p.sourceUrl, p.supportUrl, p.changelogUrl, p.publisherUrl} ::
         IsPresentationUrl(u, lib)
  }

  predicate IsWording(s: string, limit: nat) {
    IsSingleLine(s, limit) && forall i | 0 <= i < |s| :: !IsLineSeparator(s[i])
  }

  predicate GoodStatusWording(w: StatusWording) {
    IsWording(w.labelText, MAX_WORDING_LABEL) && IsWording(w.detail, MAX_WORDING_DETAIL)
  }

  predicate GoodRequestRouter(d: Descriptor) {
    d.requestRouter.Some? ==>
      && d.kind == REQUEST_ROUTER
      && (d.requestRouter.value.wording.Some? ==>
            var w := d.requestRouter.value.wording.value;
            IsWording(w.step, MAX_WORDING_LABEL) && GoodStatusWording(w.queued) && GoodStatusWording(w.downloading))
  }

  // ---------- watch sync ----------

  /** The key of a setting; a nil entry has none. */
  function SettingKey(s: Option<ConnectionSetting>): seq<string> { if s.Some? then [s.value.key] else [] }

  predicate GoodSetting(s: ConnectionSetting) {
    && IsSlug(s.key) && !IsBlank(s.labelText)
    && (s.settingType == SETTING_BOOLEAN && s.defaultValue.Some? ==> s.defaultValue.value.BoolValue?)
  }

  predicate GoodSettings(settings: seq<Option<ConnectionSetting>>) {
    && (forall s | s in settings :: s.Some? ==> GoodSetting(s.value))
    && Distinct(FlatMap(SettingKey, settings))
  }

  predicate GoodMedia(w: WatchSync) {
    && w.supportedMediaTypes != [] && UNSPECIFIED !in w.supportedMediaTypes
    && (w.operations !! {ImportRatings, ExportRatings} || exists t | t in w.supportedMediaTypes :: t != MEDIA_EPISODE)
    && (SyncDropped in w.operations ==> MEDIA_SERIES in w.supportedMediaTypes)
    && (w.ratingExportRequiresWatched != [] ==> ExportRatings in w.operations)
    && (forall t | t in w.ratingExportRequiresWatched :: t in w.supportedMediaTypes)
  }

  predicate GoodWatchSync(w: WatchSync) {
    && w.authMethods != [] && UNSPECIFIED !in w.authMethods
    && w.operations != {}
    && (w.providesWatchlistOrder ==> ImportWatchlist in w.operations)
    && 1 <= w.maxBatchSize <= 100
    && GoodMedia(w)
    && (forall n | n in w.externalIdNamespaces :: IsSlug(n))
    && GoodSettings(w.connectionSettings)
  }

  predicate GoodWatchSyncCapability(d: Descriptor) {
    if d.kind == WATCH_SYNC_PROVIDER then IsSlug(d.id) && d.watchSync.Some? && GoodWatchSync(d.watchSync.value)
    else d.watchSync.None?
  }

  // ---------- network access and authentication ----------

  predicate GoodNetworkAccess(d: Descriptor) {
    if d.kind == NETWORK_ACCESS_PROVIDER then d.networkAccess.Some? && IsSlug(d.networkAccess.value.provider)
    else d.networkAccess.None?
  }

  const KNOWN_AUTH_MODES: set<string> := {AUTH_MODE_PASSWORD, AUTH_MODE_OAUTH2, AUTH_MODE_NETWORK}

  /** A mode this SDK does not know, and that no one could mistake for one it does. */
  predicate IsNewAuthMode(mode: string) { forall known | known in KNOWN_AUTH_MODES :: !EqualFold(mode, known) }

  predicate GoodAuthMode(mode: string) { mode in KNOWN_AUTH_MODES || (!IsBlank(mode) && IsNewAuthMode(mode)) }

  predicate GoodAuthModes(modes: seq<string>) {
    && (forall m | m in modes :: GoodAuthMode(m)) && Distinct(modes)
    && (AUTH_MODE_NETWORK in modes ==> AUTH_MODE_PASSWORD !in modes && AUTH_MODE_OAUTH2 !in modes)
  }

  predicate GoodAuthProvider(d: Descriptor) {
    d.kind == AUTH_PROVIDER ==>
      && GoodAuthModes(d.authModes)
      && (d.metadata.Some? && CONNECTION_TEST_KEY in d.metadata.value ==>
            d.metadata.value[CONNECTION_TEST_KEY].BoolValue?)
  }

  // ---------- config schemas ----------

  predicate GoodDefault(value: Option<Value>, kind: string) {
    value.Some? ==>
      && (kind == "boolean" ==> value.value.BoolValue?)
      && (kind in {"integer", "number"} ==> value.value.NumberValue?)
      && (kind == "string" ==> value.value.StringValue?)
  }

  predicate GoodControl(f: FormField, kind: string) {
    && (f.control == CONTROL_MULTI_SELECT ==> kind == "array")
    && (f.control in {CONTROL_MULTI_SELECT, CONTROL_SELECT} && f.options == [] ==> f.dynamicOptions)
  }

  function FieldKey(f: Option<FormField>): seq<string> { if f.Some? then [f.value.key] else [] }

  function FieldKeys(fields: seq<Option<FormField>>): seq<string> { FlatMap(FieldKey, fields) }

  /** A field shows a declared property; its references name declared properties. */
  predicate GoodField(f: FormField, properties: map<string, string>) {
    && f.key != "" && f.key in properties
    && GoodControl(f, properties[f.key]) && GoodDefault(f.defaultValue, properties[f.key])
    && (forall c | c in f.showWhen :: c != "" && c in properties)
    && (f.exclusiveGroupField != "" ==> f.exclusiveGroupField in properties)
  }

  /** A section lists fields of the form; its conditions name declared properties. */
  predicate GoodSection(s: FormSection, keys: seq<string>, properties: map<string, string>) {
    && (forall k | k in s.fieldKeys :: k in keys)
    && (forall c | c in s.showWhen :: c != "" && c in properties)
  }

  predicate GoodForm(form: AdminForm, properties: map<string, string>) {
    && (forall f | f in form.fields :: f.Some? ==> GoodField(f.value, properties))
    && Distinct(FieldKeys(form.fields))
    && (forall s | s in form.sections :: s.Some? ==> GoodSection(s.value, FieldKeys(form.fields), properties))
  }

  predicate GoodSchema(schema: Option<ConfigSchema>, lib: Libraries) {
    schema.Some? && schema.value.adminForm.Some? ==>
      var shape := lib.parseSchema(schema.value.jsonSchema);
      shape.Shape? && shape.kind == "object" && GoodForm(schema.value.adminForm.value, shape.properties)
  }

  predicate GoodSchemas(schemas: seq<Option<ConfigSchema>>, lib: Libraries) {
    forall s | s in schemas :: GoodSchema(s, lib)
  }

  // ---------- the manifest ----------

  predicate GoodCapability(d: Descriptor, lib: Libraries) {
    && d.id != "" && d.kind in KNOWN_TYPES
    && GoodWatchSyncCapability(d) && GoodNetworkAccess(d) && GoodRequestRouter(d) && GoodAuthProvider(d)
    && GoodSchemas(d.configSchema, lib)
  }

  /** Network sign-in needs the overlay network it signs in from. */
  predicate Paired(capabilities: seq<Descriptor>) {
    (exists d | d in capabilities :: UsesNetworkIdentity(d)) ==>
      exists d | d in capabilities :: d.kind == NETWORK_ACCESS_PROVIDER
  }

  predicate GoodManifest(manifest: Option<Manifest>, lib: Libraries) {
    manifest.Some? &&
    var m := manifest.value;
    && m.pluginId != "" && m.version != ""
    && (m.presentation.Some? ==> GoodPresentation(m.presentation.value, lib))
    && (forall d | d in m.capabilities :: GoodCapability(d, lib))
    && Paired(m.capabilities)
    && GoodSchemas(m.globalConfigSchema, lib) && GoodSchemas(m.userConfigSchema, lib)
  }
}
