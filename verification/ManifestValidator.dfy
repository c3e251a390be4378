/**
 The manifest validator: loops that stop at the first fault and fill seen sets as they go.  Each
 is proved to accept exactly what ManifestRules calls good; error texts are not modelled.
 */
module ManifestValidator {
  import opened Descriptors
  import opened Lists
  import opened ManifestRules
  import opened Slug
  import opened Text
  import opened Wrappers

  // ---------- presentation ----------

  method HasDisallowedControl(value: string, allowMarkdown: bool) returns (found: bool)
    ensures found <==> exists i | 0 <= i < |value| :: IsControl(value[i]) && !(allowMarkdown && value[i] in "\n\r\t")
  {
    for i := 0 to |value|
      invariant forall k | 0 <= k < i :: !IsControl(value[k]) || (allowMarkdown && value[k] in "\n\r\t")
    {
      if !IsControl(value[i]) {
        continue;
      }
      if allowMarkdown && (value[i] == '\n' || value[i] == '\r' || value[i] == '\t') {
        continue;
      }
      return true;
    }
    return false;
  }

  method ValidatePresentationUrl(raw: string, lib: Libraries) returns (ok: bool)
    ensures ok == IsPresentationUrl(raw, lib)
  {
    if raw == "" {
      return true;
    }
    if Utf8Length(raw) > MAX_URL_BYTES {
      return false;
    }
    var control := HasDisallowedControl(raw, false);
    if !IsTrimmed(raw) || (exists i | 0 <= i < |raw| :: raw[i] in " \t\r\n") || control {
      return false;
    }
    var parsed := lib.parseUrl(raw);
    if parsed.None? {
      return false;
    }
    if (parsed.value.scheme != "http" && parsed.value.scheme != "https") || parsed.value.host == "" {
      return false;
    }
    return !parsed.value.hasUser;
  }

  method ValidatePresentation(presentation: Option<Presentation>, lib: Libraries) returns (ok: bool)
    ensures ok <==> (presentation.Some? ==> GoodPresentation(presentation.value, lib))
  {
    if presentation.None? {
      return true;
    }
    var p := presentation.value;
    var lines := [(p.displayName, MAX_DISPLAY_NAME), (p.summary, MAX_SUMMARY),
                  (p.publisherName, MAX_IDENTITY), (p.licenseSpdx, MAX_IDENTITY)];
    for i := 0 to |lines|
      invariant forall k | 0 <= k < i :: IsSingleLine(lines[k].0, lines[k].1)
    {
      var (value, limit) := lines[i];
      var control := HasDisallowedControl(value, false);
      if !IsTrimmed(value) || |value| > limit || control {
        assert !IsSingleLine(lines[i].0, lines[i].1);
        return false;
      }
    }
    assert IsSingleLine(lines[0].0, lines[0].1) && IsSingleLine(lines[1].0, lines[1].1)
        && IsSingleLine(lines[2].0, lines[2].1) && IsSingleLine(lines[3].0, lines[3].1);
    var texts := [p.descriptionMarkdown, p.setupMarkdown];
    for i := 0 to |texts|
      invariant forall k | 0 <= k < i :: IsMarkdown(texts[k])
    {
      var control := HasDisallowedControl(texts[i], true);
      if Utf8Length(texts[i]) > MAX_MARKDOWN_BYTES || control {
        assert !IsMarkdown(texts[i]);
        return false;
      }
    }
    assert IsMarkdown(texts[0]) && IsMarkdown(texts[1]);
    var urls := [p.homepageUrl, p.sourceUrl, p.supportUrl, p.changelogUrl, p.publisherUrl];
    for i := 0 to |urls|
      invariant forall k | 0 <= k < i :: IsPresentationUrl(urls[k], lib)
    {
      var good := ValidatePresentationUrl(urls[i], lib);
      if !good {
        return false;
      }
    }
    assert IsPresentationUrl(urls[0], lib) && IsPresentationUrl(urls[1], lib) && IsPresentationUrl(urls[2], lib)
        && IsPresentationUrl(urls[3], lib) && IsPresentationUrl(urls[4], lib);
    return true;
  }

  // ---------- watch sync ----------

  method ValidateConnectionSettings(settings: seq<Option<ConnectionSetting>>) returns (ok: bool)
    ensures ok == GoodSettings(settings)
  {
    var seen: set<string> := {};
    for i := 0 to |settings|
      invariant forall k | 0 <= k < i :: settings[k].Some? ==> GoodSetting(settings[k].value)
      invariant HasSeen(seen, FlatMap(SettingKey, settings[..i]))
    {
      NextKeys(SettingKey, settings, i);
      assert settings[i] in settings;
      if settings[i].None? {
        continue;
      }
      var setting := settings[i].value;
      SeeOneMore(seen, FlatMap(SettingKey, settings[..i]), setting.key);
      if !IsSlug(setting.key) {
        return false;
      }
      if setting.key in seen {
        RepeatedKey(SettingKey, settings, i);
        return false;
      }
      seen := seen + {setting.key};
      if IsBlank(setting.labelText) {
        return false;
      }
      if && setting.settingType == SETTING_BOOLEAN
         && setting.defaultValue.Some? && !setting.defaultValue.value.BoolValue?
      {
        return false;
      }
    }
    assert settings[..|settings|] == settings;
    return true;
  }

  /** The seen set holds the keys met so far, none of them met twice. */
  predicate HasSeen(seen: set<string>, keys: seq<string>) { Distinct(keys) && seen == set k | k in keys }

  lemma SeeOneMore(seen: set<string>, keys: seq<string>, key: string)
    requires HasSeen(seen, keys)
    ensures key in seen <==> !Distinct(keys + [key])
    ensures key !in seen ==> HasSeen(seen + {key}, keys + [key])
  {
    DistinctSnoc(keys, key);
  }

  lemma NextKeys<T>(key: T -> seq<string>, s: seq<T>, i: nat)
    requires i < |s|
    ensures FlatMap(key, s[..i + 1]) == FlatMap(key, s[..i]) + key(s[i])
  {
    assert s[..i + 1] == s[..i] + [s[i]];
    FlatMapSnoc(key, s[..i], s[i]);
  }

  lemma RepeatedKey<T>(key: T -> seq<string>, s: seq<T>, i: nat)
    requires i < |s| && !Distinct(FlatMap(key, s[..i + 1]))
    ensures !Distinct(FlatMap(key, s))
  {
    assert s == s[..i + 1] + s[i + 1..];
    FlatMapSplit(key, s[..i + 1], s[i + 1..]);
    var front, all := FlatMap(key, s[..i + 1]), FlatMap(key, s);
    assert forall k | 0 <= k < |front| :: all[k] == front[k];
  }

  method SupportsRatedMediaType(mediaTypes: seq<int>) returns (found: bool)
    requires UNSPECIFIED !in mediaTypes
    ensures found <==> exists t | t in mediaTypes :: t != MEDIA_EPISODE
  {
    for i := 0 to |mediaTypes|
      invariant forall k | 0 <= k < i :: mediaTypes[k] == MEDIA_EPISODE
    {
      assert mediaTypes[i] in mediaTypes;
      if mediaTypes[i] == MEDIA_MOVIE || mediaTypes[i] == MEDIA_SERIES {
        return true;
      }
      if mediaTypes[i] !in {UNSPECIFIED, MEDIA_MOVIE, MEDIA_EPISODE, MEDIA_SERIES} {
        return true;
      }
    }
    return false;
  }

  method ValidateMedia(w: WatchSync) returns (ok: bool)
    ensures ok == GoodMedia(w)
  {
    if w.supportedMediaTypes == [] {
      return false;
    }
    if UNSPECIFIED in w.supportedMediaTypes {
      return false;
    }
    var rated := SupportsRatedMediaType(w.supportedMediaTypes);
    if (ImportRatings in w.operations || ExportRatings in w.operations) && !rated {
      return false;
    }
    if SyncDropped in w.operations && MEDIA_SERIES !in w.supportedMediaTypes {
      return false;
    }
    if |w.ratingExportRequiresWatched| > 0 && ExportRatings !in w.operations {
      return false;
    }
    for i := 0 to |w.ratingExportRequiresWatched|
      invariant forall k | 0 <= k < i :: w.ratingExportRequiresWatched[k] in w.supportedMediaTypes
    {
      var mediaType := w.ratingExportRequiresWatched[i];
      if mediaType == UNSPECIFIED || mediaType !in w.supportedMediaTypes {
        assert mediaType in w.ratingExportRequiresWatched;
        return false;
      }
    }
    return true;
  }

  method ValidateWatchSyncCapability(d: Descriptor) returns (ok: bool)
    ensures ok == GoodWatchSyncCapability(d)
  {
    if d.kind != WATCH_SYNC_PROVIDER {
      return d.watchSync.None?;
    }
    if !IsSlug(d.id) || d.watchSync.None? {
      return false;
    }
    var w := d.watchSync.value;
    if w.authMethods == [] || UNSPECIFIED in w.authMethods || w.operations == {} {
      return false;
    }
    if w.providesWatchlistOrder && ImportWatchlist !in w.operations {
      return false;
    }
    if w.maxBatchSize < 1 || w.maxBatchSize > 100 {
      return false;
    }
    var media := ValidateMedia(w);
    if !media {
      return false;
    }
    for i := 0 to |w.externalIdNamespaces|
      invariant forall k | 0 <= k < i :: IsSlug(w.externalIdNamespaces[k])
    {
      if !IsSlug(w.externalIdNamespaces[i]) {
        assert w.externalIdNamespaces[i] in w.externalIdNamespaces;
        return false;
      }
    }
    ok := ValidateConnectionSettings(w.connectionSettings);
  }

  // ---------- the other capabilities ----------

  method ValidateNetworkAccessCapability(d: Descriptor) returns (ok: bool)
    ensures ok == GoodNetworkAccess(d)
  {
    if d.kind != NETWORK_ACCESS_PROVIDER {
      return d.networkAccess.None?;
    }
    if d.networkAccess.None? {
      return false;
    }
    return IsSlug(d.networkAccess.value.provider);
  }

  method ValidateWordingValue(value: string, limit: nat) returns (ok: bool)
    ensures ok == IsWording(value, limit)
  {
    if !IsTrimmed(value) || |value| > limit {
      return false;
    }
    var control := HasDisallowedControl(value, false);
    if control {
      return false;
    }
    return !exists i | 0 <= i < |value| :: IsLineSeparator(value[i]);
  }

  method ValidateStatusWording(w: StatusWording) returns (ok: bool)
    ensures ok == GoodStatusWording(w)
  {
    ok := ValidateWordingValue(w.labelText, MAX_WORDING_LABEL);
    if ok {
      ok := ValidateWordingValue(w.detail, MAX_WORDING_DETAIL);
    }
  }

  method ValidateRequestRouterCapability(d: Descriptor) returns (ok: bool)
    ensures ok == GoodRequestRouter(d)
  {
    if d.kind != REQUEST_ROUTER && d.requestRouter.Some? {
      return false;
    }
    if d.requestRouter.None? || d.requestRouter.value.wording.None? {
      return true;
    }
    var wording := d.requestRouter.value.wording.value;
    ok := ValidateWordingValue(wording.step, MAX_WORDING_LABEL);
    if ok {
      ok := ValidateStatusWording(wording.queued);
    }
    if ok {
      ok := ValidateStatusWording(wording.downloading);
    }
  }

  method ValidateAuthModes(modes: seq<string>) returns (ok: bool)
    ensures ok == GoodAuthModes(modes)
  {
    var seen: set<string> := {};
    for i := 0 to |modes|
      invariant forall k | 0 <= k < i :: GoodAuthMode(modes[k])
      invariant Distinct(modes[..i])
      invariant seen == set m | m in modes[..i]
    {
      var mode := modes[i];
      assert mode in modes;
      assert modes[..i + 1] == modes[..i] + [mode];
      DistinctSnoc(modes[..i], mode);
      if IsBlank(mode) {
        KnownModesDiffer(mode);
        return false;
      }
      if exists known | known in [AUTH_MODE_PASSWORD, AUTH_MODE_OAUTH2, AUTH_MODE_NETWORK] ::
           mode != known && EqualFold(mode, known)
      {
        KnownModesDiffer(mode);
        return false;
      }
      if mode in seen {
        assert forall k | 0 <= k <= i :: modes[..i + 1][k] == modes[k];
        return false;
      }
      seen := seen + {mode};
    }
    assert modes[..|modes|] == modes;
    return !(AUTH_MODE_NETWORK in seen && (AUTH_MODE_PASSWORD in seen || AUTH_MODE_OAUTH2 in seen));
  }

  /** No known mode is blank or a case variant of another. */
  lemma KnownModesDiffer(mode: string)
    ensures mode in KNOWN_AUTH_MODES ==> !IsBlank(mode)
    ensures forall known | known in KNOWN_AUTH_MODES ::
              mode != known && EqualFold(mode, known) ==> mode !in KNOWN_AUTH_MODES
  {
    assert !IsSpace(AUTH_MODE_PASSWORD[0]) && !IsSpace(AUTH_MODE_OAUTH2[0]) && !IsSpace(AUTH_MODE_NETWORK[0]);
  }

  method ValidateAuthProviderCapability(d: Descriptor) returns (ok: bool)
    ensures ok == GoodAuthProvider(d)
  {
    if d.kind != AUTH_PROVIDER {
      return true;
    }
    ok := ValidateAuthModes(d.authModes);
    if ok && d.metadata.Some? && CONNECTION_TEST_KEY in d.metadata.value {
      ok := d.metadata.value[CONNECTION_TEST_KEY].BoolValue?;
    }
  }

  method ValidateNetworkAuthPairing(capabilities: seq<Descriptor>) returns (ok: bool)
    ensures ok == Paired(capabilities)
  {
    var networkAuth: Option<Descriptor> := None;
    var hasNetworkAccess := false;
    for i := 0 to |capabilities|
      invariant networkAuth.Some? <==> exists k | 0 <= k < i :: UsesNetworkIdentity(capabilities[k])
      invariant hasNetworkAccess <==> exists k | 0 <= k < i :: capabilities[k].kind == NETWORK_ACCESS_PROVIDER
    {
      if UsesNetworkIdentity(capabilities[i]) && networkAuth.None? {
        networkAuth := Some(capabilities[i]);
      }
      if capabilities[i].kind == NETWORK_ACCESS_PROVIDER {
        hasNetworkAccess := true;
      }
    }
    return !(networkAuth.Some? && !hasNetworkAccess);
  }

  // ---------- config schemas ----------

  /** What the first pass over a form asks of a field. */
  predicate FieldDeclared(f: FormField, properties: map<string, string>) {
    && f.key != "" && f.key in properties
    && GoodControl(f, properties[f.key]) && GoodDefault(f.defaultValue, properties[f.key])
  }

  method ValidateControl(f: FormField, kind: string) returns (ok: bool)
    ensures ok == GoodControl(f, kind)
  {
    if f.control == CONTROL_MULTI_SELECT {
      if kind != "array" {
        return false;
      }
      return f.dynamicOptions || |f.options| > 0;
    }
    if f.control == CONTROL_SELECT {
      return f.dynamicOptions || |f.options| > 0;
    }
    return true;
  }

  method ValidateDefault(value: Option<Value>, kind: string) returns (ok: bool)
    ensures ok == GoodDefault(value, kind)
  {
    if value.None? {
      return true;
    }
    match kind
    case "boolean" => return value.value.BoolValue?;
    case "integer" => return value.value.NumberValue?;
    case "number" => return value.value.NumberValue?;
    case "string" => return value.value.StringValue?;
    case _ => return true;
  }

  /** The first pass: collects the field keys. */
  method ValidateFields(fields: seq<Option<FormField>>, properties: map<string, string>)
    returns (ok: bool, seen: set<string>)
    ensures ok <==> && (forall f | f in fields :: f.Some? ==> FieldDeclared(f.value, properties))
                    && Distinct(FieldKeys(fields))
    ensures ok ==> seen == set k | k in FieldKeys(fields)
  {
    seen := {};
    for i := 0 to |fields|
      invariant forall k | 0 <= k < i :: fields[k].Some? ==> FieldDeclared(fields[k].value, properties)
      invariant HasSeen(seen, FieldKeys(fields[..i]))
    {
      NextKeys(FieldKey, fields, i);
      assert fields[i] in fields;
      if fields[i].None? {
        continue;
      }
      var field := fields[i].value;
      SeeOneMore(seen, FieldKeys(fields[..i]), field.key);
      if field.key == "" {
        return false, seen;
      }
      if field.key in seen {
        RepeatedKey(FieldKey, fields, i);
        return false, seen;
      }
      seen := seen + {field.key};
      if field.key !in properties {
        return false, seen;
      }
      var control := ValidateControl(field, properties[field.key]);
      if !control {
        return false, seen;
      }
      var default := ValidateDefault(field.defaultValue, properties[field.key]);
      if !default {
        return false, seen;
      }
    }
    assert fields[..|fields|] == fields;
    return true, seen;
  }

  /** Conditions whose field is named and is a form field or a declared property. */
  method ValidateConditions(conditions: seq<string>, seen: set<string>, properties: map<string, string>)
    returns (ok: bool)
    ensures ok <==> forall c | c in conditions :: c != "" && (c in seen || c in properties)
  {
    for i := 0 to |conditions|
      invariant forall k | 0 <= k < i :: conditions[k] != "" && (conditions[k] in seen || conditions[k] in properties)
    {
      if conditions[i] == "" || !(conditions[i] in seen || conditions[i] in properties) {
        assert conditions[i] in conditions;
        return false;
      }
    }
    return true;
  }

  /** What the second pass asks of a field, given the keys the first pass saw. */
  predicate FieldResolved(f: FormField, seen: set<string>, properties: map<string, string>) {
    && (forall c | c in f.showWhen :: c != "" && (c in seen || c in properties))
    && (f.exclusiveGroupField != "" ==> f.exclusiveGroupField in seen || f.exclusiveGroupField in properties)
  }

  predicate SectionResolved(s: FormSection, seen: set<string>, properties: map<string, string>) {
    && (forall k | k in s.fieldKeys :: k in seen)
    && (forall c | c in s.showWhen :: c != "" && (c in seen || c in properties))
  }

  method ValidateReferences(fields: seq<Option<FormField>>, seen: set<string>, properties: map<string, string>)
    returns (ok: bool)
    ensures ok <==> forall f | f in fields :: f.Some? ==> FieldResolved(f.value, seen, properties)
  {
    for i := 0 to |fields|
      invariant forall k | 0 <= k < i :: fields[k].Some? ==> FieldResolved(fields[k].value, seen, properties)
    {
      if fields[i].None? {
        continue;
      }
      var field := fields[i].value;
      var conditions := ValidateConditions(field.showWhen, seen, properties);
      var group := field.exclusiveGroupField;
      if !conditions || (group != "" && !(group in seen || group in properties)) {
        assert fields[i] in fields && !FieldResolved(field, seen, properties);
        return false;
      }
      assert FieldResolved(field, seen, properties);
    }
    return true;
  }

  method ValidateSections(sections: seq<Option<FormSection>>, seen: set<string>, properties: map<string, string>)
    returns (ok: bool)
    ensures ok <==> forall s | s in sections :: s.Some? ==> SectionResolved(s.value, seen, properties)
  {
    for i := 0 to |sections|
      invariant forall k | 0 <= k < i :: sections[k].Some? ==> SectionResolved(sections[k].value, seen, properties)
    {
      if sections[i].None? {
        continue;
      }
      var section := sections[i].value;
      for j := 0 to |section.fieldKeys|
        invariant forall k | 0 <= k < j :: section.fieldKeys[k] in seen
      {
        if section.fieldKeys[j] !in seen {
          assert section.fieldKeys[j] in section.fieldKeys;
          assert sections[i] in sections && !SectionResolved(section, seen, properties);
          return false;
        }
      }
      var conditions := ValidateConditions(section.showWhen, seen, properties);
      if !conditions {
        assert sections[i] in sections && !SectionResolved(section, seen, properties);
        return false;
      }
      assert SectionResolved(section, seen, properties);
    }
    return true;
  }

  /** Once every field key is a declared property, looking a reference up among the field keys adds
      nothing: it resolves exactly when it names a declared property, wherever it is declared. */
  lemma ReferencesCollapse(form: AdminForm, seen: set<string>, properties: map<string, string>)
    requires seen == set k | k in FieldKeys(form.fields)
    requires forall f | f in form.fields :: f.Some? ==> FieldDeclared(f.value, properties)
    ensures seen <= properties.Keys
    ensures forall f: FormField ::
              FieldDeclared(f, properties) && FieldResolved(f, seen, properties) <==> GoodField(f, properties)
    ensures forall s: FormSection ::
              SectionResolved(s, seen, properties) <==> GoodSection(s, FieldKeys(form.fields), properties)
  {
    forall k | k in seen
      ensures k in properties
    {
      var i := FlatMapOrigin(FieldKey, form.fields, k);
      assert form.fields[i] in form.fields;
    }
  }

  method ValidateConfigSchema(schema: Option<ConfigSchema>, lib: Libraries) returns (ok: bool)
    ensures ok == GoodSchema(schema, lib)
  {
    if schema.None? || schema.value.adminForm.None? {
      return true;
    }
    var form := schema.value.adminForm.value;
    var parsed := lib.parseSchema(schema.value.jsonSchema);
    if parsed.Malformed? || parsed.kind != "object" {
      return false;
    }
    var fields, seen := ValidateFields(form.fields, parsed.properties);
    if !fields {
      assert forall f | f in form.fields ::
        f.Some? && GoodField(f.value, parsed.properties) ==> FieldDeclared(f.value, parsed.properties);
      return false;
    }
    ReferencesCollapse(form, seen, parsed.properties);
    var references := ValidateReferences(form.fields, seen, parsed.properties);
    if !references {
      return false;
    }
    ok := ValidateSections(form.sections, seen, parsed.properties);
  }

  method ValidateConfigSchemas(schemas: seq<Option<ConfigSchema>>, lib: Libraries) returns (ok: bool)
    ensures ok == GoodSchemas(schemas, lib)
  {
    for i := 0 to |schemas|
      invariant forall k | 0 <= k < i :: GoodSchema(schemas[k], lib)
    {
      var good := ValidateConfigSchema(schemas[i], lib);
      if !good {
        assert schemas[i] in schemas;
        return false;
      }
    }
    return true;
  }

  // ---------- the manifest ----------

  /** What Validate checks of a capability before the pairing. */
  predicate CapabilityChecked(d: Descriptor) {
    && d.kind != "" && d.id != "" && d.kind in KNOWN_TYPES
    && GoodWatchSyncCapability(d) && GoodNetworkAccess(d) && GoodRequestRouter(d) && GoodAuthProvider(d)
  }

  method ValidateCapability(d: Descriptor) returns (ok: bool)
    ensures ok == CapabilityChecked(d)
  {
    if d.kind == "" || d.id == "" || d.kind !in KNOWN_TYPES {
      return false;
    }
    ok := ValidateWatchSyncCapability(d);
    if ok {
      ok := ValidateNetworkAccessCapability(d);
    }
    if ok {
      ok := ValidateRequestRouterCapability(d);
    }
    if ok {
      ok := ValidateAuthProviderCapability(d);
    }
  }

  method ValidateCapabilities(capabilities: seq<Descriptor>) returns (ok: bool)
    ensures ok <==> forall d | d in capabilities :: CapabilityChecked(d)
  {
    for i := 0 to |capabilities|
      invariant forall k | 0 <= k < i :: CapabilityChecked(capabilities[k])
    {
      var good := ValidateCapability(capabilities[i]);
      if !good {
        assert capabilities[i] in capabilities;
        return false;
      }
    }
    return true;
  }

  method ValidateCapabilitySchemas(capabilities: seq<Descriptor>, lib: Libraries) returns (ok: bool)
    ensures ok <==> forall d | d in capabilities :: GoodSchemas(d.configSchema, lib)
  {
    for i := 0 to |capabilities|
      invariant forall k | 0 <= k < i :: GoodSchemas(capabilities[k].configSchema, lib)
    {
      var good := ValidateConfigSchemas(capabilities[i].configSchema, lib);
      if !good {
        assert capabilities[i] in capabilities;
        return false;
      }
    }
    return true;
  }

  lemma CheckedIsGood(d: Descriptor, lib: Libraries)
    ensures GoodCapability(d, lib) <==> CapabilityChecked(d) && GoodSchemas(d.configSchema, lib)
  {
    assert "" !in KNOWN_TYPES by {
      assert forall t | t in KNOWN_TYPES :: |t| > 0;
    }
  }

  /** Validate accepts exactly the good manifests. */
  method Validate(manifest: Option<Manifest>, lib: Libraries) returns (ok: bool)
    ensures ok == GoodManifest(manifest, lib)
  {
    if manifest.None? {
      return false;
    }
    var m := manifest.value;
    forall d | d in m.capabilities
      ensures GoodCapability(d, lib) <==> CapabilityChecked(d) && GoodSchemas(d.configSchema, lib)
    {
      CheckedIsGood(d, lib);
    }
    if m.pluginId == "" || m.version == "" {
      return false;
    }
    ok := ValidatePresentation(m.presentation, lib);
    if !ok {
      return false;
    }
    ok := ValidateCapabilities(m.capabilities);
    if !ok {
      return false;
    }
    ok := ValidateNetworkAuthPairing(m.capabilities);
    if !ok {
      return false;
    }
    ok := ValidateConfigSchemas(m.globalConfigSchema, lib);
    if !ok {
      return false;
    }
    ok := ValidateConfigSchemas(m.userConfigSchema, lib);
    if !ok {
      return false;
    }
    ok := ValidateCapabilitySchemas(m.capabilities, lib);
  }
}
