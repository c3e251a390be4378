/**
 Consequences of the manifest rules: the verdict does not depend on any order, an accepted manifest
 stays accepted when a newer SDK's vocabulary is added, and accepted network sign-in is consistent.
 ManifestValidator.Validate decides exactly GoodManifest, so all of this holds of the validator.
 */
module ManifestLaws {
  import opened Descriptors
  import opened Lists
  import opened ManifestRules
  import opened Slug
  import opened Text
  import opened Wrappers

  // ---------- order does not matter ----------

  ghost predicate SameForm(a: Option<AdminForm>, b: Option<AdminForm>) {
    match (a, b)
    case (Some(x), Some(y)) => Permuted(x.fields, y.fields) && Permuted(x.sections, y.sections)
    case (None, None) => true
    case _ => false
  }

  /** Equal but for the order of form fields and sections. */
  ghost predicate SameSchema(a: Option<ConfigSchema>, b: Option<ConfigSchema>) {
    match (a, b)
    case (Some(x), Some(y)) => x == y.(adminForm := x.adminForm) && SameForm(x.adminForm, y.adminForm)
    case (None, None) => true
    case _ => false
  }

  ghost predicate SameSchemas(a: seq<Option<ConfigSchema>>, b: seq<Option<ConfigSchema>>) {
    |a| == |b| && forall i | 0 <= i < |a| :: SameSchema(a[i], b[i])
  }

  /** Equal but for the order of media types and connection settings. */
  ghost predicate SameWatchSync(a: Option<WatchSync>, b: Option<WatchSync>) {
    match (a, b)
    case (Some(x), Some(y)) =>
      && x == y.(supportedMediaTypes := x.supportedMediaTypes, connectionSettings := x.connectionSettings)
      && Permuted(x.supportedMediaTypes, y.supportedMediaTypes)
      && Permuted(x.connectionSettings, y.connectionSettings)
    case (None, None) => true
    case _ => false
  }

  /** Equal but for the order inside the lists of a capability. */
  ghost predicate SameCapability(a: Descriptor, b: Descriptor) {
    && a == b.(authModes := a.authModes, watchSync := a.watchSync, configSchema := a.configSchema)
    && Permuted(a.authModes, b.authModes)
    && SameWatchSync(a.watchSync, b.watchSync)
    && SameSchemas(a.configSchema, b.configSchema)
  }

  /** Equal but for the order of capabilities and of everything inside them and the schemas:
      between is m with its capabilities in the order of n. */
  ghost predicate Reordered(m: Manifest, between: seq<Descriptor>, n: Manifest) {
    && m == n.(capabilities := m.capabilities, globalConfigSchema := m.globalConfigSchema,
               userConfigSchema := m.userConfigSchema)
    && SameSchemas(m.globalConfigSchema, n.globalConfigSchema) && SameSchemas(m.userConfigSchema, n.userConfigSchema)
    && Permuted(m.capabilities, between) && |between| == |n.capabilities|
    && forall i | 0 <= i < |between| :: SameCapability(between[i], n.capabilities[i])
  }

  lemma SettingsOrder(a: seq<Option<ConnectionSetting>>, b: seq<Option<ConnectionSetting>>)
    requires Permuted(a, b)
    ensures GoodSettings(a) <==> GoodSettings(b)
  {
    PermutedMembers(a, b);
    PermutedFlatMap(SettingKey, a, b);
    PermutedDistinct(FlatMap(SettingKey, a), FlatMap(SettingKey, b));
  }

  lemma WatchSyncOrder(a: Option<WatchSync>, b: Option<WatchSync>)
    requires SameWatchSync(a, b)
    ensures a.Some? ==> (GoodWatchSync(a.value) <==> GoodWatchSync(b.value))
  {
    if a.Some? {
      PermutedMembers(a.value.supportedMediaTypes, b.value.supportedMediaTypes);
      SettingsOrder(a.value.connectionSettings, b.value.connectionSettings);
    }
  }

  lemma AuthModesOrder(a: seq<string>, b: seq<string>)
    requires Permuted(a, b)
    ensures GoodAuthModes(a) <==> GoodAuthModes(b)
  {
    PermutedMembers(a, b);
    PermutedDistinct(a, b);
  }

  lemma FormOrder(a: AdminForm, b: AdminForm, properties: map<string, string>)
    requires SameForm(Some(a), Some(b))
    ensures GoodForm(a, properties) <==> GoodForm(b, properties)
  {
    PermutedMembers(a.fields, b.fields);
    PermutedMembers(a.sections, b.sections);
    PermutedFlatMap(FieldKey, a.fields, b.fields);
    PermutedMembers(FieldKeys(a.fields), FieldKeys(b.fields));
    PermutedDistinct(FieldKeys(a.fields), FieldKeys(b.fields));
  }

  lemma SchemaOrder(a: Option<ConfigSchema>, b: Option<ConfigSchema>, lib: Libraries)
    requires SameSchema(a, b)
    ensures GoodSchema(a, lib) <==> GoodSchema(b, lib)
  {
    if a.Some? && a.value.adminForm.Some? {
      var shape := lib.parseSchema(a.value.jsonSchema);
      if shape.Shape? {
        FormOrder(a.value.adminForm.value, b.value.adminForm.value, shape.properties);
      }
    }
  }

  lemma SchemasOrder(a: seq<Option<ConfigSchema>>, b: seq<Option<ConfigSchema>>, lib: Libraries)
    requires SameSchemas(a, b)
    ensures GoodSchemas(a, lib) <==> GoodSchemas(b, lib)
  {
    forall i | 0 <= i < |a|
      ensures GoodSchema(a[i], lib) <==> GoodSchema(b[i], lib)
    {
      SchemaOrder(a[i], b[i], lib);
    }
    AllByIndex(a, b, s => GoodSchema(s, lib));
  }

  lemma AllByIndex<T>(a: seq<T>, b: seq<T>, p: T -> bool)
    requires |a| == |b| && forall i | 0 <= i < |a| :: p(a[i]) <==> p(b[i])
    ensures (forall x | x in a :: p(x)) <==> (forall x | x in b :: p(x))
  {
    if forall x | x in a :: p(x) {
      assert forall i | 0 <= i < |b| :: a[i] in a;
    }
    if forall x | x in b :: p(x) {
      assert forall i | 0 <= i < |a| :: b[i] in b;
    }
  }

  lemma CapabilityOrder(a: Descriptor, b: Descriptor, lib: Libraries)
    requires SameCapability(a, b)
    ensures GoodCapability(a, lib) <==> GoodCapability(b, lib)
    ensures UsesNetworkIdentity(a) <==> UsesNetworkIdentity(b)
  {
    PermutedMembers(a.authModes, b.authModes);
    AuthModesOrder(a.authModes, b.authModes);
    WatchSyncOrder(a.watchSync, b.watchSync);
    SchemasOrder(a.configSchema, b.configSchema, lib);
  }

  lemma CapabilitiesOrder(a: seq<Descriptor>, between: seq<Descriptor>, b: seq<Descriptor>, lib: Libraries)
    requires Permuted(a, between) && |between| == |b|
    requires forall i | 0 <= i < |between| :: SameCapability(between[i], b[i])
    ensures (forall d | d in a :: GoodCapability(d, lib)) <==> (forall d | d in b :: GoodCapability(d, lib))
    ensures Paired(a) <==> Paired(b)
  {
    PermutedMembers(a, between);
    forall i | 0 <= i < |between|
      ensures GoodCapability(between[i], lib) <==> GoodCapability(b[i], lib)
      ensures UsesNetworkIdentity(between[i]) <==> UsesNetworkIdentity(b[i])
      ensures between[i].kind == b[i].kind
    {
      CapabilityOrder(between[i], b[i], lib);
    }
    AllByIndex(between, b, d => GoodCapability(d, lib));
    AllByIndex(between, b, d => !UsesNetworkIdentity(d));
    AllByIndex(between, b, (d: Descriptor) => d.kind != NETWORK_ACCESS_PROVIDER);
  }

  /** The verdict on a manifest is the same for every order of its capabilities, auth modes, media
      types, connection settings, form fields and sections, all reordered at once. */
  lemma OrderDoesNotMatter(m: Manifest, between: seq<Descriptor>, n: Manifest, lib: Libraries)
    requires Reordered(m, between, n)
    ensures GoodManifest(Some(m), lib) <==> GoodManifest(Some(n), lib)
  {
    CapabilitiesOrder(m.capabilities, between, n.capabilities, lib);
    SchemasOrder(m.globalConfigSchema, n.globalConfigSchema, lib);
    SchemasOrder(m.userConfigSchema, n.userConfigSchema, lib);
  }

  // ---------- manifests from a newer SDK ----------

  function Insert<T>(s: seq<T>, k: nat, x: T): seq<T>
    requires k <= |s|
  {
    s[..k] + [x] + s[k..]
  }

  lemma InsertMembers<T>(s: seq<T>, k: nat, x: T)
    requires k <= |s|
    ensures forall y :: y in Insert(s, k, x) <==> y == x || y in s
    ensures Permuted(Insert(s, k, x), s + [x])
  {
    assert s == s[..k] + s[k..];
    assert forall y :: y in s <==> y in s[..k] || y in s[k..];
  }

  /** The manifest with its i-th capability replaced. */
  function With(m: Manifest, i: nat, d: Descriptor): Manifest
    requires i < |m.capabilities|
  {
    m.(capabilities := m.capabilities[i := d])
  }

  /** Replacing a capability by one of the same kind that signs in no differently leaves the verdict
      to that capability. */
  lemma ReplacedCapability(m: Manifest, i: nat, d: Descriptor, lib: Libraries)
    requires GoodManifest(Some(m), lib) && i < |m.capabilities|
    requires d.kind == m.capabilities[i].kind && (UsesNetworkIdentity(d) <==> UsesNetworkIdentity(m.capabilities[i]))
    ensures GoodManifest(Some(With(m, i, d)), lib) <==> GoodCapability(d, lib)
  {
    var before, after := m.capabilities, m.capabilities[i := d];
    assert before[i] in before && after[i] == d && after[i] in after;
    assert forall c | c in after :: c == d || c in before;
    if c :| c in before && c.kind == NETWORK_ACCESS_PROVIDER {
      var k :| 0 <= k < |before| && before[k] == c;
      assert after[k].kind == NETWORK_ACCESS_PROVIDER && after[k] in after;
    }
    if c :| c in after && UsesNetworkIdentity(c) {
      assert exists b | b in before :: UsesNetworkIdentity(b);
    }
  }

  /** A watch-sync capability of an accepted manifest with one more media type, anywhere in the list,
      is accepted if and only if the type is specified; whether this SDK knows it does not matter. */
  lemma MediaTypeAdded(m: Manifest, i: nat, k: nat, mediaType: int, lib: Libraries)
    requires GoodManifest(Some(m), lib) && i < |m.capabilities| && m.capabilities[i].kind == WATCH_SYNC_PROVIDER
    requires m.capabilities[i].watchSync.Some? && k <= |m.capabilities[i].watchSync.value.supportedMediaTypes|
    ensures var d := m.capabilities[i];
            var w := d.watchSync.value;
            GoodManifest(Some(With(m, i, d.(watchSync := Some(w.(supportedMediaTypes :=
              Insert(w.supportedMediaTypes, k, mediaType)))))), lib)
            <==> mediaType != UNSPECIFIED
  {
    var d := m.capabilities[i];
    var w := d.watchSync.value;
    var e := d.(watchSync := Some(w.(supportedMediaTypes := Insert(w.supportedMediaTypes, k, mediaType))));
    assert d in m.capabilities;
    InsertMembers(w.supportedMediaTypes, k, mediaType);
    assert e.watchSync.value.supportedMediaTypes != [];
    ReplacedCapability(m, i, e, lib);
  }

  /** With one more connection setting, of a type this SDK may not know, it is accepted if and only
      if the key is a fresh slug, there is a label, and a boolean setting has a boolean default. */
  lemma ConnectionSettingAdded(m: Manifest, i: nat, k: nat, setting: ConnectionSetting, lib: Libraries)
    requires GoodManifest(Some(m), lib) && i < |m.capabilities| && m.capabilities[i].kind == WATCH_SYNC_PROVIDER
    requires m.capabilities[i].watchSync.Some? && k <= |m.capabilities[i].watchSync.value.connectionSettings|
    ensures var d := m.capabilities[i];
            var w := d.watchSync.value;
            GoodManifest(Some(With(m, i, d.(watchSync := Some(w.(connectionSettings :=
              Insert(w.connectionSettings, k, Some(setting))))))), lib)
            <==> GoodSetting(setting) && setting.key !in FlatMap(SettingKey, w.connectionSettings)
  {
    var d := m.capabilities[i];
    var w := d.watchSync.value;
    var e := d.(watchSync := Some(w.(connectionSettings := Insert(w.connectionSettings, k, Some(setting)))));
    assert d in m.capabilities;
    SettingInserted(w.connectionSettings, k, setting);
    ReplacedCapability(m, i, e, lib);
  }

  lemma SettingInserted(settings: seq<Option<ConnectionSetting>>, k: nat, setting: ConnectionSetting)
    requires GoodSettings(settings) && k <= |settings|
    ensures GoodSettings(Insert(settings, k, Some(setting)))
            <==> GoodSetting(setting) && setting.key !in FlatMap(SettingKey, settings)
  {
    var more := Insert(settings, k, Some(setting));
    InsertMembers(settings, k, Some(setting));
    PermutedFlatMap(SettingKey, more, settings + [Some(setting)]);
    FlatMapSnoc(SettingKey, settings, Some(setting));
    PermutedDistinct(FlatMap(SettingKey, more), FlatMap(SettingKey, settings) + [setting.key]);
    DistinctSnoc(FlatMap(SettingKey, settings), setting.key);
    assert Some(setting) in more;
  }

  /** With one more auth mode that this SDK does not know and that is no case variant of one it does,
      it is accepted if and only if the mode is not blank and not listed already. */
  lemma NewAuthModeAdded(m: Manifest, i: nat, k: nat, mode: string, lib: Libraries)
    requires GoodManifest(Some(m), lib) && i < |m.capabilities| && m.capabilities[i].kind == AUTH_PROVIDER
    requires k <= |m.capabilities[i].authModes| && IsNewAuthMode(mode)
    ensures var d := m.capabilities[i];
            GoodManifest(Some(With(m, i, d.(authModes := Insert(d.authModes, k, mode)))), lib)
            <==> !IsBlank(mode) && mode !in d.authModes
  {
    var d := m.capabilities[i];
    var e := d.(authModes := Insert(d.authModes, k, mode));
    assert d in m.capabilities;
    NewModesAreNotKnown(mode);
    InsertMembers(d.authModes, k, mode);
    PermutedDistinct(e.authModes, d.authModes + [mode]);
    DistinctSnoc(d.authModes, mode);
    assert mode in e.authModes;
    ReplacedCapability(m, i, e, lib);
  }

  lemma NewModesAreNotKnown(mode: string)
    requires IsNewAuthMode(mode)
    ensures mode !in KNOWN_AUTH_MODES
  {
    assert forall i | 0 <= i < |AUTH_MODE_PASSWORD| :: Fold(AUTH_MODE_PASSWORD[i]) == AUTH_MODE_PASSWORD[i];
    assert forall i | 0 <= i < |AUTH_MODE_OAUTH2| :: Fold(AUTH_MODE_OAUTH2[i]) == AUTH_MODE_OAUTH2[i];
    assert forall i | 0 <= i < |AUTH_MODE_NETWORK| :: Fold(AUTH_MODE_NETWORK[i]) == AUTH_MODE_NETWORK[i];
  }

  // ---------- network sign-in ----------

  /** In an accepted manifest a capability that signs people in from the overlay network lists its
      modes once each, none of them password or oauth2 in any spelling, and some capability of the
      same manifest fronts that network under a path-safe provider slug. */
  lemma NetworkSignInIsConsistent(m: Manifest, d: Descriptor, lib: Libraries) returns (access: Descriptor)
    requires GoodManifest(Some(m), lib) && d in m.capabilities && UsesNetworkIdentity(d)
    ensures Distinct(d.authModes)
    ensures forall mode | mode in d.authModes ::
              !EqualFold(mode, AUTH_MODE_PASSWORD) && !EqualFold(mode, AUTH_MODE_OAUTH2)
    ensures access in m.capabilities && access.kind == NETWORK_ACCESS_PROVIDER
    ensures access.networkAccess.Some? && Matches(access.networkAccess.value.provider)
  {
    access :| access in m.capabilities && access.kind == NETWORK_ACCESS_PROVIDER;
    assert GoodCapability(d, lib) && GoodCapability(access, lib);
    SlugLanguage(access.networkAccess.value.provider);
    forall mode | mode in d.authModes
      ensures !EqualFold(mode, AUTH_MODE_PASSWORD) && !EqualFold(mode, AUTH_MODE_OAUTH2)
    {
      assert GoodAuthMode(mode);
      if mode == AUTH_MODE_NETWORK {
        assert |mode| != |AUTH_MODE_PASSWORD| && |mode| != |AUTH_MODE_OAUTH2|;
      }
    }
  }

  /** The names of accepted capabilities that end up in paths and keys: the id, namespaces and setting
      keys of a watch-sync capability and the provider of a network access descriptor, which is there
      on exactly the network access capabilities, are all slugs, so Slug.SlugIsPathSafe holds of them. */
  lemma AcceptedNamesAreSlugs(m: Manifest, d: Descriptor, lib: Libraries)
    requires GoodManifest(Some(m), lib) && d in m.capabilities
    ensures d.kind == WATCH_SYNC_PROVIDER ==> d.watchSync.Some? && Matches(d.id)
    ensures d.watchSync.Some? ==>
              && (forall n | n in d.watchSync.value.externalIdNamespaces :: Matches(n))
              && (forall s | s in d.watchSync.value.connectionSettings && s.Some? :: Matches(s.value.key))
    ensures d.networkAccess.Some? <==> d.kind == NETWORK_ACCESS_PROVIDER
    ensures d.networkAccess.Some? ==> Matches(d.networkAccess.value.provider)
  {
    assert GoodCapability(d, lib);
    if d.watchSync.Some? {
      WatchSyncNamesAreSlugs(d.id, d.watchSync.value);
    }
    if d.networkAccess.Some? {
      SlugLanguage(d.networkAccess.value.provider);
    }
  }

  lemma WatchSyncNamesAreSlugs(id: string, w: WatchSync)
    requires IsSlug(id) && GoodWatchSync(w)
    ensures Matches(id)
    ensures forall n | n in w.externalIdNamespaces :: Matches(n)
    ensures forall s | s in w.connectionSettings && s.Some? :: Matches(s.value.key)
  {
    SlugLanguage(id);
    forall n | n in w.externalIdNamespaces
      ensures Matches(n)
    {
      SlugLanguage(n);
    }
    forall s | s in w.connectionSettings && s.Some?
      ensures Matches(s.value.key)
    {
      SlugLanguage(s.value.key);
    }
  }

  /** With its network access descriptor replaced, dropped or added, a capability of an accepted
      manifest stays accepted if and only if one is there on a network access capability and nowhere
      else, and its provider matches the slug pattern. */
  lemma NetworkAccessReplaced(m: Manifest, i: nat, access: Option<NetworkAccess>, lib: Libraries)
    requires GoodManifest(Some(m), lib) && i < |m.capabilities|
    ensures GoodManifest(Some(With(m, i, m.capabilities[i].(networkAccess := access))), lib)
            <==> && (access.Some? <==> m.capabilities[i].kind == NETWORK_ACCESS_PROVIDER)
                 && (access.Some? ==> Matches(access.value.provider))
  {
    var d := m.capabilities[i].(networkAccess := access);
    assert m.capabilities[i] in m.capabilities;
    if access.Some? {
      SlugLanguage(access.value.provider);
    }
    ReplacedCapability(m, i, d, lib);
  }
}
