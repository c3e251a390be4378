/**
 Editing an accepted manifest: for every part that can be replaced, added or taken away, when the
 manifest stays accepted.  The conditions are said of the part itself, element by element and in plain
 numbers and names, so together with the smallest accepted manifest they settle every verdict.
 */
module ManifestEdits {
  import opened Descriptors
  import opened Lists
  import opened ManifestLaws
  import opened ManifestRules
  import opened Slug
  import opened Text
  import opened Wrappers

  // ---------- the smallest manifest ----------

  /** A manifest of nothing but its identity is accepted exactly when it has one. */
  lemma BareManifest(pluginId: string, version: string, lib: Libraries)
    ensures GoodManifest(Some(Manifest(pluginId, version, None, [], [], [])), lib)
            <==> pluginId != "" && version != ""
  {
  }

  lemma IdentityReplaced(m: Manifest, pluginId: string, version: string, lib: Libraries)
    requires GoodManifest(Some(m), lib)
    ensures GoodManifest(Some(m.(pluginId := pluginId, version := version)), lib)
            <==> pluginId != "" && version != ""
  {
  }

  // ---------- capabilities ----------

  /** An auth provider that signs people in from the overlay network. */
  predicate SignsIn(d: Descriptor) { d.kind == "auth_provider.v1" && "network" in d.authModes }

  function Without(m: Manifest, i: nat): Manifest
    requires i < |m.capabilities|
  {
    m.(capabilities := m.capabilities[..i] + m.capabilities[i + 1..])
  }

  lemma WithoutMembers(m: Manifest, i: nat)
    requires i < |m.capabilities|
    ensures forall d :: d in Without(m, i).capabilities
                        <==> exists j | 0 <= j < |m.capabilities| && j != i :: m.capabilities[j] == d
  {
    var rest := Without(m, i).capabilities;
    forall d | d in rest
      ensures exists j | 0 <= j < |m.capabilities| && j != i :: m.capabilities[j] == d
    {
      var k :| 0 <= k < |rest| && rest[k] == d;
      assert m.capabilities[if k < i then k else k + 1] == d;
    }
    forall j | 0 <= j < |m.capabilities| && j != i
      ensures m.capabilities[j] in rest
    {
      assert rest[if j < i then j else j - 1] == m.capabilities[j];
    }
  }

  /** Taking a capability away keeps a manifest accepted, unless it was the last network access
      provider beside an auth provider that signs people in from the network. */
  lemma CapabilityRemoved(m: Manifest, i: nat, lib: Libraries)
    requires GoodManifest(Some(m), lib) && i < |m.capabilities|
    ensures GoodManifest(Some(Without(m, i)), lib)
            <==> !(&& (exists j | 0 <= j < |m.capabilities| && j != i :: SignsIn(m.capabilities[j]))
                   && !exists j | 0 <= j < |m.capabilities| && j != i :: IsNetworkAccess(m.capabilities[j]))
  {
    AllStillGood(m, i, lib);
    PairedInWords(Without(m, i).capabilities);
    SomeLeft(m, i, SignsIn);
    SomeLeft(m, i, IsNetworkAccess);
  }

  predicate IsNetworkAccess(d: Descriptor) { d.kind == "network_access_provider.v1" }

  lemma SomeLeft(m: Manifest, i: nat, p: Descriptor -> bool)
    requires i < |m.capabilities|
    ensures (exists d | d in Without(m, i).capabilities :: p(d))
            <==> exists j | 0 <= j < |m.capabilities| && j != i :: p(m.capabilities[j])
  {
    WithoutMembers(m, i);
  }

  lemma AllStillGood(m: Manifest, i: nat, lib: Libraries)
    requires GoodManifest(Some(m), lib) && i < |m.capabilities|
    ensures forall d | d in Without(m, i).capabilities :: GoodCapability(d, lib)
  {
    var rest := Without(m, i).capabilities;
    forall k | 0 <= k < |rest|
      ensures rest[k] in m.capabilities
    {
      assert rest[k] == m.capabilities[if k < i then k else k + 1];
    }
  }

  lemma PairedInWords(capabilities: seq<Descriptor>)
    ensures Paired(capabilities)
            <==> !(&& (exists d | d in capabilities :: SignsIn(d))
                   && !exists d | d in capabilities :: IsNetworkAccess(d))
  {
    assert forall d: Descriptor :: UsesNetworkIdentity(d) <==> SignsIn(d);
  }

  /** A capability replaced by one of the same type leaves the verdict to the new one. */
  lemma CapabilityReplaced(m: Manifest, i: nat, d: Descriptor, lib: Libraries)
    requires GoodManifest(Some(m), lib) && i < |m.capabilities| && d.kind == m.capabilities[i].kind
    ensures GoodManifest(Some(With(m, i, d)), lib)
            <==> && GoodCapability(d, lib)
                 && (SignsIn(d) ==> exists c | c in m.capabilities :: c.kind == "network_access_provider.v1")
  {
    var before, after := m.capabilities, m.capabilities[i := d];
    assert after[i] == d && d in after;
    assert forall c | c in after :: c == d || c in before;
    SameNetworks(before, after);
    PairedInWords(before);
    PairedInWords(after);
  }

  lemma SameNetworks(before: seq<Descriptor>, after: seq<Descriptor>)
    requires |before| == |after| && forall k | 0 <= k < |before| :: before[k].kind == after[k].kind
    ensures (exists c | c in before :: c.kind == "network_access_provider.v1")
            <==> exists c | c in after :: c.kind == "network_access_provider.v1"
  {
    if c :| c in before && c.kind == "network_access_provider.v1" {
      var k :| 0 <= k < |before| && before[k] == c;
      assert after[k] in after;
    }
    if c :| c in after && c.kind == "network_access_provider.v1" {
      var k :| 0 <= k < |after| && after[k] == c;
      assert before[k] in before;
    }
  }

  // ---------- auth providers ----------

  /** A mode is not blank, and if it spells a known one it spells it exactly. */
  predicate IsMode(mode: string) {
    && (exists i | 0 <= i < |mode| :: !IsSpace(mode[i]))
    && (EqualFold(mode, "password") ==> mode == "password")
    && (EqualFold(mode, "oauth2") ==> mode == "oauth2")
    && (EqualFold(mode, "network") ==> mode == "network")
  }

  /** All are modes, none is listed twice, and network is not beside password or oauth2. */
  predicate ModesFit(modes: seq<string>) {
    && (forall k | 0 <= k < |modes| :: IsMode(modes[k]))
    && (forall j, k | 0 <= j < k < |modes| :: modes[j] != modes[k])
    && ("network" in modes ==> "password" !in modes && "oauth2" !in modes)
  }

  lemma ModesInWords(mode: string)
    ensures GoodAuthMode(mode) <==> IsMode(mode)
  {
    KnownModesFold();
    if mode in {"password", "oauth2", "network"} {
      assert !IsSpace(mode[0]);
    }
  }

  lemma KnownModesFold()
    ensures EqualFold("password", "password") && EqualFold("oauth2", "oauth2") && EqualFold("network", "network")
    ensures |"password"| == 8 && |"oauth2"| == 6 && |"network"| == 7
  {
  }

  /** Capitals, the long s and the Kelvin sign are no way to spell a known mode. */
  lemma MisspeltModes(mode: string)
    requires mode in {"Network", "networ\U{212A}", "pa\U{017F}sword", "OAuth2"}
    ensures !IsMode(mode)
  {
    if mode == "Network" || mode == "networ\U{212A}" {
      assert EqualFold(mode, "network");
    } else if mode == "OAuth2" {
      assert EqualFold(mode, "oauth2");
    } else {
      assert EqualFold(mode, "password");
    }
  }

  /** Other auth modes keep an auth provider's manifest accepted if and only if they fit, and network
      comes with a network access provider. */
  lemma AuthModesReplaced(m: Manifest, i: nat, modes: seq<string>, lib: Libraries)
    requires GoodManifest(Some(m), lib) && i < |m.capabilities| && m.capabilities[i].kind == "auth_provider.v1"
    ensures GoodManifest(Some(With(m, i, m.capabilities[i].(authModes := modes))), lib)
            <==> && ModesFit(modes)
                 && ("network" in modes ==>
                       exists c | c in m.capabilities :: c.kind == "network_access_provider.v1")
  {
    var d := m.capabilities[i].(authModes := modes);
    assert m.capabilities[i] in m.capabilities;
    GoodModesInWords(modes);
    CapabilityReplaced(m, i, d, lib);
  }

  /** Other metadata keeps an auth provider's manifest accepted if and only if connection_test, when it
      is there, is a boolean; that of any other capability is free. */
  lemma MetadataReplaced(m: Manifest, i: nat, metadata: Option<map<string, Value>>, lib: Libraries)
    requires GoodManifest(Some(m), lib) && i < |m.capabilities|
    ensures GoodManifest(Some(With(m, i, m.capabilities[i].(metadata := metadata))), lib)
            <==> (m.capabilities[i].kind == "auth_provider.v1" ==> TestFits(metadata))
  {
    var d := m.capabilities[i].(metadata := metadata);
    assert m.capabilities[i] in m.capabilities;
    ReplacedCapability(m, i, d, lib);
  }

  lemma GoodModesInWords(modes: seq<string>)
    ensures GoodAuthModes(modes) <==> ModesFit(modes)
  {
    forall mode: string
      ensures GoodAuthMode(mode) <==> IsMode(mode)
    {
      ModesInWords(mode);
    }
  }

  // ---------- watch sync ----------

  /** A watch-sync descriptor names at least one auth method, operation and media type, none of them
      unspecified; imports the watchlist whose order it provides; takes batches of 1 to 100; can rate
      some media type if it rates; supports series if it syncs dropped shows; exports ratings, and
      supports the types, that wait for a watch; and has good namespaces and settings. */
  ghost predicate WatchSyncFits(w: WatchSync) {
    && |w.authMethods| > 0 && |w.operations| > 0 && |w.supportedMediaTypes| > 0
    && 0 !in w.authMethods && 0 !in w.supportedMediaTypes
    && (w.providesWatchlistOrder ==> ImportWatchlist in w.operations)
    && 1 <= w.maxBatchSize <= 100
    && (ImportRatings in w.operations || ExportRatings in w.operations ==>
          exists k | 0 <= k < |w.supportedMediaTypes| :: w.supportedMediaTypes[k] != 2)
    && (SyncDropped in w.operations ==> 3 in w.supportedMediaTypes)
    && (|w.ratingExportRequiresWatched| > 0 ==> ExportRatings in w.operations)
    && (forall t | t in w.ratingExportRequiresWatched :: t in w.supportedMediaTypes)
    && (forall n | n in w.externalIdNamespaces :: Matches(n))
    && SettingsInWords(w.connectionSettings)
  }

  lemma WatchSyncInWords(w: WatchSync)
    ensures GoodWatchSync(w) <==> WatchSyncFits(w)
  {
    forall n: string
      ensures IsSlug(n) <==> Matches(n)
    {
      SlugLanguage(n);
    }
    SomeByIndex(w.supportedMediaTypes, t => t != 2);
    MediaInWords(w);
    GoodSettingsInWords(w.connectionSettings);
    assert w.operations == {} <==> |w.operations| == 0;
  }

  lemma MediaInWords(w: WatchSync)
    ensures (exists t | t in w.supportedMediaTypes :: t != MEDIA_EPISODE)
            <==> exists k | 0 <= k < |w.supportedMediaTypes| :: w.supportedMediaTypes[k] != 2
  {
    SomeByIndex(w.supportedMediaTypes, t => t != 2);
  }

  /** A watch-sync descriptor replaced, dropped or added keeps a manifest accepted if and only if one is
      there on a watch-sync capability and nowhere else, and fits. */
  lemma WatchSyncReplaced(m: Manifest, i: nat, w: Option<WatchSync>, lib: Libraries)
    requires GoodManifest(Some(m), lib) && i < |m.capabilities|
    ensures GoodManifest(Some(With(m, i, m.capabilities[i].(watchSync := w))), lib)
            <==> && (w.Some? <==> m.capabilities[i].kind == "watch_sync_provider.v1")
                 && (w.Some? ==> WatchSyncFits(w.value))
  {
    var d := m.capabilities[i].(watchSync := w);
    assert m.capabilities[i] in m.capabilities;
    if w.Some? {
      WatchSyncInWords(w.value);
    }
    ReplacedCapability(m, i, d, lib);
  }

  /** Another id keeps it accepted if and only if it is not empty, and matches the slug pattern on a
      watch-sync capability. */
  lemma IdReplaced(m: Manifest, i: nat, id: string, lib: Libraries)
    requires GoodManifest(Some(m), lib) && i < |m.capabilities|
    ensures GoodManifest(Some(With(m, i, m.capabilities[i].(id := id))), lib)
            <==> id != "" && (m.capabilities[i].kind == "watch_sync_provider.v1" ==> Matches(id))
  {
    var d := m.capabilities[i].(id := id);
    assert m.capabilities[i] in m.capabilities;
    SlugLanguage(id);
    ReplacedCapability(m, i, d, lib);
  }

  /** The settings that are there have keys that match the slug pattern, all different, labels that are
      not blank, and boolean defaults if they are boolean. */
  ghost predicate SettingsInWords(settings: seq<Option<ConnectionSetting>>) {
    && (forall k | 0 <= k < |settings| && settings[k].Some? ::
          var s := settings[k].value;
          && Matches(s.key) && (exists c | 0 <= c < |s.labelText| :: !IsSpace(s.labelText[c]))
          && (s.settingType == 1 && s.defaultValue.Some? ==> s.defaultValue.value.BoolValue?))
    && (forall j, k | 0 <= j < k < |settings| && settings[j].Some? && settings[k].Some? ::
          settings[j].value.key != settings[k].value.key)
  }

  lemma GoodSettingsInWords(settings: seq<Option<ConnectionSetting>>)
    ensures GoodSettings(settings) <==> SettingsInWords(settings)
  {
    DistinctResults(SettingKey, settings);
    SettingKeysDiffer(settings);
    forall key: string
      ensures IsSlug(key) <==> Matches(key)
    {
      SlugLanguage(key);
    }
    if GoodSettings(settings) {
      assert forall k | 0 <= k < |settings| :: settings[k] in settings;
    }
  }

  lemma SettingKeysDiffer(settings: seq<Option<ConnectionSetting>>)
    ensures OneEach(SettingKey, settings)
            <==> forall j, k | 0 <= j < k < |settings| && settings[j].Some? && settings[k].Some? ::
                   settings[j].value.key != settings[k].value.key
  {
    forall j, k | 0 <= j < k < |settings|
      ensures SettingKey(settings[j]) != [] && SettingKey(settings[k]) != [] ==>
                (SettingKey(settings[j]) != SettingKey(settings[k])
                 <==> settings[j].value.key != settings[k].value.key)
    {
    }
  }

  // ---------- wording and presentation ----------

  /** At most limit characters, none of them a control character, and no white space at the ends. */
  predicate IsLineWithin(s: string, limit: nat) {
    && |s| <= limit
    && (forall i | 0 <= i < |s| :: !(s[i] < ' ') && !('\U{007F}' <= s[i] <= '\U{009F}'))
    && (|s| > 0 ==> !IsSpace(s[0]) && !IsSpace(s[|s| - 1]))
  }

  predicate HasSeparator(s: string) { '\U{2028}' in s || '\U{2029}' in s }

  predicate StatusFits(w: StatusWording) {
    && IsLineWithin(w.labelText, 24) && !HasSeparator(w.labelText)
    && IsLineWithin(w.detail, 140) && !HasSeparator(w.detail)
  }

  lemma WordingInWords(s: string, limit: nat)
    ensures IsWording(s, limit) <==> IsLineWithin(s, limit) && !HasSeparator(s)
  {
  }

  /** The wording, if there is any, is single lines of at most 24 characters for labels and 140 for
      details. */
  predicate RouterFits(router: RequestRouter) {
    router.wording.Some? ==>
      && IsLineWithin(router.wording.value.step, 24) && !HasSeparator(router.wording.value.step)
      && StatusFits(router.wording.value.queued) && StatusFits(router.wording.value.downloading)
  }

  /** Another request-router descriptor keeps a manifest accepted if and only if it is on a request
      router and its wording fits. */
  lemma RequestRouterReplaced(m: Manifest, i: nat, router: RequestRouter, lib: Libraries)
    requires GoodManifest(Some(m), lib) && i < |m.capabilities|
    ensures GoodManifest(Some(With(m, i, m.capabilities[i].(requestRouter := Some(router)))), lib)
            <==> m.capabilities[i].kind == "request_router.v1" && RouterFits(router)
  {
    var d := m.capabilities[i].(requestRouter := Some(router));
    assert m.capabilities[i] in m.capabilities;
    RouterInWords(d);
    ReplacedCapability(m, i, d, lib);
  }

  lemma RouterInWords(d: Descriptor)
    ensures GoodRequestRouter(d)
            <==> (d.requestRouter.Some? ==> d.kind == "request_router.v1" && RouterFits(d.requestRouter.value))
  {
    if d.requestRouter.Some? && d.requestRouter.value.wording.Some? {
      var router := d.requestRouter.value;
      var w := router.wording.value;
      WordingInWords(w.step, 24);
      WordingInWords(w.queued.labelText, 24);
      WordingInWords(w.queued.detail, 140);
      WordingInWords(w.downloading.labelText, 24);
      WordingInWords(w.downloading.detail, 140);
    }
  }

  /** Empty, or an http or https URL of at most 2048 bytes with a host and no user, without spaces and
      control characters and without white space at the ends. */
  predicate UrlFits(s: string, lib: Libraries) {
    s == "" ||
    (&& Utf8Length(s) <= 2048 && IsLineWithin(s, |s|) && ' ' !in s
     && match lib.parseUrl(s)
        case None => false
        case Some(url) => (url.scheme == "http" || url.scheme == "https") && url.host != "" && !url.hasUser)
  }

  /** At most 32 KiB, and no control characters but line ends and tabs. */
  predicate MarkdownFits(s: string) {
    && Utf8Length(s) <= 32768
    && forall i | 0 <= i < |s| :: s[i] in "\n\r\t" || (!(s[i] < ' ') && !('\U{007F}' <= s[i] <= '\U{009F}'))
  }

  lemma UrlInWords(s: string, lib: Libraries)
    ensures IsPresentationUrl(s, lib) <==> UrlFits(s, lib)
  {
  }

  lemma MarkdownInWords(s: string)
    ensures IsMarkdown(s) <==> MarkdownFits(s)
  {
  }

  lemma LineInWords(s: string, limit: nat)
    ensures IsSingleLine(s, limit) <==> IsLineWithin(s, limit)
  {
  }

  /** Names of at most 120 characters, a summary of at most 240, and texts and URLs that fit. */
  predicate PresentationFits(p: Presentation, lib: Libraries) {
    && IsLineWithin(p.displayName, 120) && IsLineWithin(p.summary, 240)
    && IsLineWithin(p.publisherName, 120) && IsLineWithin(p.licenseSpdx, 120)
    && MarkdownFits(p.descriptionMarkdown) && MarkdownFits(p.setupMarkdown)
    && UrlFits(p.homepageUrl, lib) && UrlFits(p.sourceUrl, lib) && UrlFits(p.supportUrl, lib)
    && UrlFits(p.changelogUrl, lib) && UrlFits(p.publisherUrl, lib)
  }

  lemma PresentationInWords(p: Presentation, lib: Libraries)
    ensures GoodPresentation(p, lib) <==> PresentationFits(p, lib)
  {
    LineInWords(p.displayName, 120);
    LineInWords(p.summary, 240);
    LineInWords(p.publisherName, 120);
    LineInWords(p.licenseSpdx, 120);
    MarkdownInWords(p.descriptionMarkdown);
    MarkdownInWords(p.setupMarkdown);
    UrlInWords(p.homepageUrl, lib);
    UrlInWords(p.sourceUrl, lib);
    UrlInWords(p.supportUrl, lib);
    UrlInWords(p.changelogUrl, lib);
    UrlInWords(p.publisherUrl, lib);
  }

  /** Another presentation keeps a manifest accepted if and only if it fits; none at all always does. */
  lemma PresentationReplaced(m: Manifest, p: Presentation, lib: Libraries)
    requires GoodManifest(Some(m), lib)
    ensures GoodManifest(Some(m.(presentation := None)), lib)
    ensures GoodManifest(Some(m.(presentation := Some(p))), lib) <==> PresentationFits(p, lib)
  {
    PresentationInWords(p, lib);
  }

  // ---------- config schemas ----------

  /** Each reference is named and is a declared property. */
  predicate ConditionsFit(conditions: seq<string>, properties: map<string, string>) {
    forall k | 0 <= k < |conditions| :: conditions[k] != "" && conditions[k] in properties
  }

  /** A field has a key that is a declared property; a multi-select an array to fill, and either select
      options or the promise of some; a default of its property's type; and references that resolve. */
  predicate FieldFits(f: FormField, properties: map<string, string>) {
    && f.key != "" && f.key in properties
    && (f.control == 7 ==> properties[f.key] == "array")
    && (f.control == 6 || f.control == 7 ==> f.dynamicOptions || |f.options| > 0)
    && (f.defaultValue.Some? ==>
          match properties[f.key]
          case "boolean" => f.defaultValue.value.BoolValue?
          case "integer" => f.defaultValue.value.NumberValue?
          case "number" => f.defaultValue.value.NumberValue?
          case "string" => f.defaultValue.value.StringValue?
          case _ => true)
    && ConditionsFit(f.showWhen, properties)
    && (f.exclusiveGroupField == "" || f.exclusiveGroupField in properties)
  }

  /** The fields that are there fit and have different keys, and the sections that are there list keys of
      such fields and have references that resolve. */
  predicate FormFits(form: AdminForm, properties: map<string, string>) {
    && (forall k | 0 <= k < |form.fields| && form.fields[k].Some? :: FieldFits(form.fields[k].value, properties))
    && (forall j, k | 0 <= j < k < |form.fields| && form.fields[j].Some? && form.fields[k].Some? ::
          form.fields[j].value.key != form.fields[k].value.key)
    && (forall k | 0 <= k < |form.sections| && form.sections[k].Some? ::
          SectionFits(form.sections[k].value, form.fields, properties))
  }

  predicate SectionFits(s: FormSection, fields: seq<Option<FormField>>, properties: map<string, string>) {
    && (forall key | key in s.fieldKeys ::
          exists k | 0 <= k < |fields| && fields[k].Some? :: fields[k].value.key == key)
    && ConditionsFit(s.showWhen, properties)
  }

  lemma FieldInWords(f: FormField, properties: map<string, string>)
    ensures GoodField(f, properties) <==> FieldFits(f, properties)
  {
    ConditionsInWords(f.showWhen, properties);
  }

  lemma ConditionsInWords(conditions: seq<string>, properties: map<string, string>)
    ensures (forall c | c in conditions :: c != "" && c in properties) <==> ConditionsFit(conditions, properties)
  {
    if forall c | c in conditions :: c != "" && c in properties {
      assert forall k | 0 <= k < |conditions| :: conditions[k] in conditions;
    }
  }

  lemma IsFieldKey(fields: seq<Option<FormField>>, key: string)
    ensures key in FieldKeys(fields)
            <==> exists k | 0 <= k < |fields| && fields[k].Some? :: fields[k].value.key == key
  {
    FlatMapMember(FieldKey, fields, key);
    if k :| 0 <= k < |fields| && fields[k].Some? && fields[k].value.key == key {
      assert FieldKey(fields[k]) == [key];
    }
    if k :| 0 <= k < |fields| && FieldKey(fields[k]) == [key] {
      assert fields[k].Some? && fields[k].value.key == key;
    }
  }

  lemma FieldKeysDiffer(fields: seq<Option<FormField>>)
    ensures Distinct(FieldKeys(fields))
            <==> forall j, k | 0 <= j < k < |fields| && fields[j].Some? && fields[k].Some? ::
                   fields[j].value.key != fields[k].value.key
  {
    DistinctResults(FieldKey, fields);
    forall j, k | 0 <= j < k < |fields|
      ensures FieldKey(fields[j]) != [] && FieldKey(fields[k]) != [] ==>
                (FieldKey(fields[j]) != FieldKey(fields[k]) <==> fields[j].value.key != fields[k].value.key)
    {
    }
  }

  lemma SectionInWords(s: FormSection, fields: seq<Option<FormField>>, properties: map<string, string>)
    ensures GoodSection(s, FieldKeys(fields), properties) <==> SectionFits(s, fields, properties)
  {
    ConditionsInWords(s.showWhen, properties);
    forall key | key in s.fieldKeys
      ensures key in FieldKeys(fields)
              <==> exists k | 0 <= k < |fields| && fields[k].Some? :: fields[k].value.key == key
    {
      IsFieldKey(fields, key);
    }
  }

  lemma EachPresent<T>(list: seq<Option<T>>, good: T -> bool)
    ensures (forall x | x in list :: x.Some? ==> good(x.value))
            <==> forall k | 0 <= k < |list| && list[k].Some? :: good(list[k].value)
  {
    if forall x | x in list :: x.Some? ==> good(x.value) {
      assert forall k | 0 <= k < |list| :: list[k] in list;
    }
  }

  lemma FormInWords(form: AdminForm, properties: map<string, string>)
    ensures GoodForm(form, properties) <==> FormFits(form, properties)
  {
    FieldKeysDiffer(form.fields);
    forall f: FormField
      ensures GoodField(f, properties) <==> FieldFits(f, properties)
    {
      FieldInWords(f, properties);
    }
    forall s: FormSection
      ensures GoodSection(s, FieldKeys(form.fields), properties) <==> SectionFits(s, form.fields, properties)
    {
      SectionInWords(s, form.fields, properties);
    }
    EachPresent(form.fields, f => FieldFits(f, properties));
    EachPresent(form.sections, s => SectionFits(s, form.fields, properties));
  }

  /** A schema fits that is nil, has no form, or has one that fits the object its JSON schema describes. */
  predicate SchemaFits(schema: Option<ConfigSchema>, lib: Libraries) {
    schema.None? || schema.value.adminForm.None? ||
    match lib.parseSchema(schema.value.jsonSchema)
    case Malformed => false
    case Shape(kind, properties) => kind == "object" && FormFits(schema.value.adminForm.value, properties)
  }

  /** One more config schema, for all users, for each user or on a capability, keeps a manifest accepted
      if and only if it fits. */
  lemma SchemaAppended(m: Manifest, i: nat, schema: Option<ConfigSchema>, lib: Libraries)
    requires GoodManifest(Some(m), lib)
    ensures GoodManifest(Some(m.(globalConfigSchema := m.globalConfigSchema + [schema])), lib)
            <==> SchemaFits(schema, lib)
    ensures GoodManifest(Some(m.(userConfigSchema := m.userConfigSchema + [schema])), lib)
            <==> SchemaFits(schema, lib)
    ensures i < |m.capabilities| ==>
              var d := m.capabilities[i];
              GoodManifest(Some(With(m, i, d.(configSchema := d.configSchema + [schema]))), lib)
              <==> SchemaFits(schema, lib)
  {
    SchemaInWords(schema, lib);
    OneSchemaMore(m.globalConfigSchema, schema, lib);
    OneSchemaMore(m.userConfigSchema, schema, lib);
    if i < |m.capabilities| {
      var d := m.capabilities[i];
      assert d in m.capabilities;
      OneSchemaMore(d.configSchema, schema, lib);
      ReplacedCapability(m, i, d.(configSchema := d.configSchema + [schema]), lib);
    }
  }

  lemma SchemaInWords(schema: Option<ConfigSchema>, lib: Libraries)
    ensures GoodSchema(schema, lib) <==> SchemaFits(schema, lib)
  {
    if schema.Some? && schema.value.adminForm.Some? {
      var shape := lib.parseSchema(schema.value.jsonSchema);
      if shape.Shape? {
        FormInWords(schema.value.adminForm.value, shape.properties);
      }
    }
  }

  lemma OneSchemaMore(schemas: seq<Option<ConfigSchema>>, schema: Option<ConfigSchema>, lib: Libraries)
    ensures GoodSchemas(schemas + [schema], lib) <==> GoodSchemas(schemas, lib) && GoodSchema(schema, lib)
  {
    var more := schemas + [schema];
    assert more[|schemas|] == schema;
    assert forall s :: s in more <==> s in schemas || s == schema;
  }

  // ---------- whole capabilities ----------

  const TYPES: set<string> := {
    "event_consumer.v1", "http_routes.v1", "scheduled_task.v1", "request_router.v1", "media_analyzer.v1",
    "auth_provider.v1", "metadata_provider.v1", "image_resolver.v1", "marker_provider.v1", "audiobook_backend.v1",
    "ebook_backend.v1", "scan_source.v1", "watch_sync_provider.v1", "network_access_provider.v1"
  }

  /** Each typed part is where it belongs and fits: watch sync and network access are on their types and
      always there, a request router may be on its own, auth modes and connection_test matter on an auth
      provider alone.  Names, subscriptions and other metadata are free. */
  ghost predicate CapabilityFits(d: Descriptor, lib: Libraries) {
    && d.id != "" && d.kind in TYPES
    && (d.watchSync.Some? <==> d.kind == "watch_sync_provider.v1")
    && (d.watchSync.Some? ==> Matches(d.id) && WatchSyncFits(d.watchSync.value))
    && (d.networkAccess.Some? <==> d.kind == "network_access_provider.v1")
    && (d.networkAccess.Some? ==> Matches(d.networkAccess.value.provider))
    && (d.requestRouter.Some? ==> d.kind == "request_router.v1" && RouterFits(d.requestRouter.value))
    && (d.kind == "auth_provider.v1" ==> ModesFit(d.authModes) && TestFits(d.metadata))
    && (forall k | 0 <= k < |d.configSchema| :: SchemaFits(d.configSchema[k], lib))
  }

  /** The announcement of a connection test, when it is there, is a boolean. */
  predicate TestFits(metadata: Option<map<string, Value>>) {
    metadata.Some? && "connection_test" in metadata.value ==> metadata.value["connection_test"].BoolValue?
  }

  lemma CapabilityInWords(d: Descriptor, lib: Libraries)
    ensures GoodCapability(d, lib) <==> CapabilityFits(d, lib)
  {
    assert KNOWN_TYPES == TYPES;
    WatchSyncPlaced(d);
    NetworkAccessPlaced(d);
    RouterInWords(d);
    GoodModesInWords(d.authModes);
    SchemasInWords(d.configSchema, lib);
  }

  lemma WatchSyncPlaced(d: Descriptor)
    ensures GoodWatchSyncCapability(d)
            <==> && (d.watchSync.Some? <==> d.kind == "watch_sync_provider.v1")
                 && (d.watchSync.Some? ==> Matches(d.id) && WatchSyncFits(d.watchSync.value))
  {
    SlugLanguage(d.id);
    if d.watchSync.Some? {
      WatchSyncInWords(d.watchSync.value);
    }
  }

  lemma NetworkAccessPlaced(d: Descriptor)
    ensures GoodNetworkAccess(d)
            <==> && (d.networkAccess.Some? <==> d.kind == "network_access_provider.v1")
                 && (d.networkAccess.Some? ==> Matches(d.networkAccess.value.provider))
  {
    if d.networkAccess.Some? {
      SlugLanguage(d.networkAccess.value.provider);
    }
  }

  lemma SchemasInWords(schemas: seq<Option<ConfigSchema>>, lib: Libraries)
    ensures GoodSchemas(schemas, lib) <==> forall k | 0 <= k < |schemas| :: SchemaFits(schemas[k], lib)
  {
    forall s: Option<ConfigSchema>
      ensures GoodSchema(s, lib) <==> SchemaFits(s, lib)
    {
      SchemaInWords(s, lib);
    }
    if GoodSchemas(schemas, lib) {
      assert forall k | 0 <= k < |schemas| :: schemas[k] in schemas;
    }
  }

  /** One more capability keeps a manifest accepted if and only if it fits and, should it sign people in
      from the network, some other capability fronts that network. */
  lemma CapabilityAppended(m: Manifest, d: Descriptor, lib: Libraries)
    requires GoodManifest(Some(m), lib)
    ensures GoodManifest(Some(m.(capabilities := m.capabilities + [d])), lib)
            <==> && CapabilityFits(d, lib)
                 && (SignsIn(d) ==> exists c | c in m.capabilities :: c.kind == "network_access_provider.v1")
  {
    var more := m.capabilities + [d];
    CapabilityInWords(d, lib);
    assert more[|m.capabilities|] == d;
    assert forall c :: c in more <==> c in m.capabilities || c == d;
    PairedInWords(m.capabilities);
    PairedInWords(more);
  }

  /** So a manifest with a single scan source and no networking is accepted. */
  lemma ScanSourceIsAccepted(pluginId: string, version: string, d: Descriptor, lib: Libraries)
    requires pluginId != "" && version != "" && d.kind == "scan_source.v1" && d.id != ""
    requires d.watchSync.None? && d.networkAccess.None? && d.requestRouter.None? && d.configSchema == []
    ensures GoodManifest(Some(Manifest(pluginId, version, None, [d], [], [])), lib)
  {
    var bare := Manifest(pluginId, version, None, [], [], []);
    BareManifest(pluginId, version, lib);
    CapabilityAppended(bare, d, lib);
    assert bare.capabilities + [d] == [d];
  }
}
