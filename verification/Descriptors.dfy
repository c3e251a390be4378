/** The manifest messages the SDK validates and converts, with the fields it looks at. */
module Descriptors {
  import opened Wrappers

  const EVENT_CONSUMER := "event_consumer.v1"
  const HTTP_ROUTES := "http_routes.v1"
  const SCHEDULED_TASK := "scheduled_task.v1"
  const REQUEST_ROUTER := "request_router.v1"
  const MEDIA_ANALYZER := "media_analyzer.v1"
  const AUTH_PROVIDER := "auth_provider.v1"
  const METADATA_PROVIDER := "metadata_provider.v1"
  const IMAGE_RESOLVER := "image_resolver.v1"
  const MARKER_PROVIDER := "marker_provider.v1"
  const AUDIOBOOK_BACKEND := "audiobook_backend.v1"
  const EBOOK_BACKEND := "ebook_backend.v1"
  const SCAN_SOURCE := "scan_source.v1"
  const WATCH_SYNC_PROVIDER := "watch_sync_provider.v1"
  const NETWORK_ACCESS_PROVIDER := "network_access_provider.v1"

  const KNOWN_TYPES: set<string> := {
    EVENT_CONSUMER, HTTP_ROUTES, SCHEDULED_TASK, REQUEST_ROUTER, MEDIA_ANALYZER, AUTH_PROVIDER, METADATA_PROVIDER,
    IMAGE_RESOLVER, MARKER_PROVIDER, AUDIOBOOK_BACKEND, EBOOK_BACKEND, SCAN_SOURCE, WATCH_SYNC_PROVIDER,
    NETWORK_ACCESS_PROVIDER
  }

  const AUTH_MODE_PASSWORD := "password"
  const AUTH_MODE_OAUTH2 := "oauth2"
  const AUTH_MODE_NETWORK := "network"
  const CONNECTION_TEST_KEY := "connection_test"

  // Enum values travel as numbers, so values newer than this SDK can occur.
  const UNSPECIFIED: int := 0
  const MEDIA_MOVIE: int := 1
  const MEDIA_EPISODE: int := 2
  const MEDIA_SERIES: int := 3
  const SETTING_BOOLEAN: int := 1
  const CONTROL_SELECT: int := 6
  const CONTROL_MULTI_SELECT: int := 7

  /** google.protobuf.Value, with finite numbers. */
  datatype Value =
    | NullValue
    | BoolValue(b: bool)
    | NumberValue(n: real)
    | StringValue(s: string)
    | ListValue(items: seq<Value>)
    | StructValue(fields: map<string, Value>)

  datatype ConnectionSetting = ConnectionSetting(key: string, labelText: string, settingType: int,
                                                 defaultValue: Option<Value>)

  /** The boolean operations of a watch-sync descriptor that can be switched on. */
  datatype Operation =
    | ExportWatched | ExportUnwatched | ImportWatched | ImportProgress
    | ImportFavorites | ExportFavorites | RemoveFavorites
    | ImportWatchlist | ExportWatchlist | RemoveWatchlist
    | ScrobblePlayback | ImportRatings | ExportRatings | SyncDropped

  datatype WatchSync = WatchSync(authMethods: seq<int>, operations: set<Operation>, providesWatchlistOrder: bool,
                                 maxBatchSize: int, supportedMediaTypes: seq<int>,
                                 ratingExportRequiresWatched: seq<int>, externalIdNamespaces: seq<string>,
                                 connectionSettings: seq<Option<ConnectionSetting>>)

  datatype NetworkAccess = NetworkAccess(provider: string, displayName: string)

  datatype StatusWording = StatusWording(labelText: string, detail: string)

  datatype Wording = Wording(step: string, queued: StatusWording, downloading: StatusWording)

  datatype RequestRouter = RequestRouter(wording: Option<Wording>)

  datatype FormField = FormField(key: string, control: int, defaultValue: Option<Value>, options: seq<string>,
                                 dynamicOptions: bool, showWhen: seq<string>, exclusiveGroupField: string)

  datatype FormSection = FormSection(key: string, fieldKeys: seq<string>, showWhen: seq<string>)

  datatype AdminForm = AdminForm(fields: seq<Option<FormField>>, sections: seq<Option<FormSection>>)

  datatype ConfigSchema = ConfigSchema(key: string, title: string, description: string, jsonSchema: string,
                                       required: bool, adminForm: Option<AdminForm>)

  datatype Descriptor = Descriptor(kind: string, id: string, displayName: string, description: string,
                                   subscriptions: seq<string>, authModes: seq<string>, iconUrl: string,
                                   watchSync: Option<WatchSync>, networkAccess: Option<NetworkAccess>,
                                   requestRouter: Option<RequestRouter>,
                                   configSchema: seq<Option<ConfigSchema>>,
                                   metadata: Option<map<string, Value>>)

  datatype Presentation = Presentation(displayName: string, summary: string, publisherName: string, licenseSpdx: string,
                                       descriptionMarkdown: string, setupMarkdown: string,
                                       homepageUrl: string, sourceUrl: string, supportUrl: string,
                                       changelogUrl: string, publisherUrl: string)

  datatype Manifest = Manifest(pluginId: string, version: string, presentation: Option<Presentation>,
                               capabilities: seq<Descriptor>,
                               globalConfigSchema: seq<Option<ConfigSchema>>,
                               userConfigSchema: seq<Option<ConfigSchema>>)

  /** AuthProviderUsesNetworkIdentity. */
  predicate UsesNetworkIdentity(d: Descriptor) { d.kind == AUTH_PROVIDER && AUTH_MODE_NETWORK in d.authModes }

  /** AuthProviderSupportsConnectionTest: the metadata key, when it holds the boolean true. */
  predicate SupportsConnectionTest(d: Descriptor) {
    d.kind == AUTH_PROVIDER && d.metadata.Some? && CONNECTION_TEST_KEY in d.metadata.value
    && d.metadata.value[CONNECTION_TEST_KEY] == BoolValue(true)
  }
}
