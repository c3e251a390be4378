# Verified model of the Bloem plugin SDK

This project models the hand-written logic of the SDK and proves what it promises:

- **Tailing a change log** (`ChangeLog`, `ScanSource`, `Tailing`). A writer appends to a log, a host
  stores the marker of each successful poll, and a stateless plugin turns the marker into "changes
  since then". Proved: delivery is exactly once over every run of appends and polls, also when polls
  fail, race with the writer or have their markers discarded; no fragment of a line is ever reported,
  whatever the log is replaced by; the poll schedule does not matter; a rotated log is reported in full,
  by one poll and by a whole run, exactly when a condition on the marker holds (the README of the
  example admits the gap; the condition and a witness are here); and when a poll repeated with the same
  marker reports the same changes again.
- **The storage fixture** (`Storage`, `StorageLaws`). Paging visits a namespace of two million virtual
  entries exactly once for any choice of page sizes, in pages within the contract's bounds, ids are
  canonical, Stat finds exactly what is listed and a few hidden ids, and a read delivers exactly its range
  in bounded, consecutive chunks, with `int64` arithmetic that never overflows. Which of the
  deliberately faulty reads break the contract is characterised exactly.
- **The manifest validator** (`Text`, `Slug`, `Descriptors`, `ManifestRules`, `ManifestValidator`,
  `ManifestLaws`, `ManifestEdits`). Loops that stop at the first fault are proved equal to order-free
  rules. The rules give order independence, forward compatibility as equivalences, and consistency of
  network sign-in; and from the smallest accepted manifest on it is proved, for each part in plain terms,
  when a manifest stays accepted with that part replaced, added or taken away.
- **The capability record codec** (`GoValues`, `Codec`, `CodecLaws`). Encoding then decoding gives the
  descriptor back, directly and through a JSON database. For arbitrary records it is characterised which
  are accepted, before and after the database held them, and when the two decodings are the same, errors
  included; typed lists and nil slices or maps in the wrong place are what makes them differ.
- **Runtime wiring** (`HostBroker`, `ServeWiring`). The cached host connection is explained by the
  history of binds and dials; the startup check agrees with what the layered plugins register, unless
  registering a server panics, and it is said which does.
- **Network-access intent** (`NetworkIntent`). An acknowledged Connect or Disconnect survives late
  restores and restarts, exactly when the host was bound or its store agreed already.

`Wrappers`, `Lists`, `Bytes` and `Decimal` hold what these share. Code that loops or updates fields is
modelled by methods and classes, each tied to a specification function or predicate; the laws are
lemmas about those. What the environment decides (file contents and faults, how reads split into
blocks, dial and RPC failures, stream failures, JSON and URL parsing) enters as parameters, so every
law holds for all of it. Log lines are bytes, with Unicode white space written out as UTF-8; manifest
strings are sequences of Unicode characters, as protojson yields them.

Where code and documentation differ, the code is followed:

- `docs/scan-source.md` asks that a truncated log be read from its start; the example plugin reads one
  from the marker when the byte before the marker happens to be a newline
  (`Tailing.RotatedLogIsReported`, `Tailing.RotationCanSkip`).
- `docs/scan-source.md` also asks that two polls with the same marker return the same changes, and says the
  host keeps the old marker when the scans of a successful poll could not be queued. With a marker past
  the end of a truncated log, the example plugin reports that log from its start, and nothing of what it
  reported once the log has grown to the marker (`Tailing.RepeatedPollExtends`,
  `Tailing.RepeatedPollCanForget`, `Tailing.DiscardedPollCanLose`).
- `examples/hello-network-access/main.go` acknowledges Connect and Disconnect without storing anything
  while the host is unbound, so that the intent survives a restart, as its README says, needs the
  condition in `NetworkIntent.SurvivesRestart` (`NetworkIntent.UnboundConnectIsForgotten`).
- `pkg/pluginsdk/convert/convert.go` refuses some records it accepts once they have been through JSON,
  such as a `[]string` under `config_schema`, and accepts some it refuses afterwards, such as a nil
  `[]string` under `auth_modes` (`CodecLaws.StoredRecordDecodes`, `CodecLaws.StoringCanRepair`,
  `CodecLaws.StoringCanSpoil`).

## Model

| member | source | states |
|---|---|---|
| ChangeLog.ChangeFor | examples/hello-scan-source/main.go:117-132 | a change is a subtree exactly when the line ends in a slash, and its path is the line without its trailing slashes |
| ChangeLog.CompleteEndUnique | examples/hello-scan-source/main.go:199-201 | there is one offset just past the last complete line, so the specified end is that one |
| ChangeLog.LinesSplit | examples/hello-scan-source/main.go:168-170 | a log cut at a line boundary has the lines of both parts, in order |
| ChangeLog.LinesUnique | examples/hello-scan-source/main.go:168-170 | any cut of a log into complete lines and an unfinished rest is the one the specification makes |
| ChangeLog.LinesRebuild | examples/hello-scan-source/main.go:168-170 | the complete lines put together are the log up to the end of the last one |
| ChangeLog.ChangeComesFromLine | examples/hello-scan-source/main.go:193-195 | every announced change is the trimmed text of one whole non-blank line and contains no newline |
| ChangeLog.ChangesOneByOne | examples/hello-scan-source/main.go:184-197 | conversely a line in front of a log gives exactly its own change before those of the rest, or none when it is blank |
| Bytes.TrimSpaceIsExact | examples/hello-scan-source/main.go:193 | trimming takes Unicode white space, and nothing else, off both ends, and leaves none there |
| Bytes.TrimmedHasNoNewline | examples/hello-scan-source/main.go:193 | trimming Unicode white space off a line removes its newline |
| Decimal.PrintedParsesBack | examples/hello-scan-source/main.go:81-110 | printing an offset, padded or not, then parsing it as an int64 gives it back |
| Decimal.ParsedIsSpelled | examples/hello-scan-source/main.go:81-86 | the strings that parse to a non-negative int64 are its printed numeral with zeros and at most one sign in front |
| ScanSource.LineReader.ReadString | examples/hello-scan-source/main.go:183-196 | delivers the next complete line, or the reason there is none before the end or the fault |
| ScanSource.ReadAppended | examples/hello-scan-source/main.go:171-197 | reads exactly the non-blank complete lines after the offset and the end of the last, or fails as a whole |
| ScanSource.BlockReader.Read | examples/hello-scan-source/main.go:210-213 | fills the reused buffer with the next bytes, in blocks of any size, empty ones and a final one with EOF included |
| ScanSource.CompleteLinesEnd | examples/hello-scan-source/main.go:202-224 | the block scan finds the end of the last complete line for every split into blocks |
| ScanSource.ScansAgree | examples/hello-scan-source/main.go:171-224 | the block scan and the line scan from the start agree, and both are the offset past the last newline or 0 |
| ScanSource.FollowsNewline | examples/hello-scan-source/main.go:144-156 | reports whether the offset is a line boundary, and fails when the byte cannot be read |
| ScanSource.PollChanges | examples/hello-scan-source/main.go:51-115 | answers as the specified poll for every marker and everything the system calls can find |
| Tailing.MarkerIsCanonical | examples/hello-scan-source/main.go:104-110 | every returned marker is the non-empty decimal of an offset and parses back to it |
| Tailing.ForeignMarkerResyncs | examples/hello-scan-source/main.go:76-86 | an empty marker or one that is no non-negative int64 moves to the end of the log and reports nothing, however the log grows during the poll |
| Tailing.OffsetResumes | examples/hello-scan-source/main.go:87-114 | with an offset at a line boundary of the log, a poll reports the changes from there and the end of the last line |
| Tailing.OffsetRestarts | examples/hello-scan-source/main.go:87-114 | with an offset past the end or inside a line, it reports the whole log |
| Tailing.PollFailsExactly | examples/hello-scan-source/main.go:59-106 | a poll fails exactly when the log is missing though it was there, is refused, or it or the byte before the marker cannot be read |
| Tailing.FirstPollStartsFromNow | docs/scan-source.md:151-153 | in every run of a new source the first poll whose marker is stored delivers nothing the log held, and everything delivered later follows that |
| Tailing.NeverAFragment | examples/hello-scan-source/main.go:87-104 | a poll of any log with any marker reports exactly the complete lines from 0, the marker or the end, always a line boundary, to the last complete line |
| Tailing.EveryChangeIsAWholeLine | examples/hello-scan-source/main.go:104-114 | every reported change is the text of a whole line of the log as read |
| Tailing.ExactlyOnce | examples/hello-scan-source/main.go:51-115 | after any run of appends and polls from any marker, what polls with a stored marker delivered is exactly the changes between the first such poll's start and the current marker, each once and in order; what polls with a discarded marker delivered besides are changes of the log |
| Tailing.CaughtUp | examples/hello-scan-source/main.go:51-115 | after a poll that could read, everything complete since the start has been delivered |
| Tailing.ScheduleDoesNotMatter | examples/hello-scan-source/main.go:51-115 | two schedules that build the same log end, after a poll that could read, with the same marker and the same changes delivered |
| Tailing.RepeatedPollExtends | examples/hello-scan-source/main.go:81-114 | a poll repeated with the same marker on a grown log reports the earlier changes again and then more, if and only if the log did not grow from short of the marker to a line boundary there, or what follows the marker begins with the earlier report |
| Tailing.RepeatedPollCanForget | docs/scan-source.md:159-161 | a concrete marker and log whose repeated poll no longer reports what the first one did |
| Tailing.DiscardedPollCanLose | docs/scan-source.md:191-193 | a concrete run in which a line is lost because the host kept its marker after a poll of a truncated log |
| Tailing.RotatedLogIsReported | examples/hello-scan-source/main.go:87-102 | a poll reports a rotated log in full if and only if the marker is 0, past its end or not after a newline, or nothing before the marker is worth reporting |
| Tailing.RotatedRunIsReported | examples/hello-scan-source/main.go:87-102 | the same of everything delivered by any run that begins with a poll of the rotated log and ends with one that could read |
| Tailing.RotationCanSkip | examples/hello-scan-source/main.go:87-102 | a concrete rotated log loses a line |
| Storage.CanonicalIds | examples/hello-storage/provider.go:59-69 | of all strings, exactly the seven-digit renderings of numbers in range, and root, name entries of the scale source |
| Storage.BookIdsDiffer | examples/hello-storage/provider.go:65 | different numbers have different ids |
| Storage.EntryOf | examples/hello-storage/provider.go:59-85 | an entry carries its own id and the one revision; only root and chapters are directories, of size 0; absence is the only failure |
| Storage.EntryNames | examples/hello-storage/provider.go:59-85 | files are named after their ids with the extension, directories bear the bare id |
| StorageLaws.StatFindsExactly | examples/hello-storage/provider.go:86-101 | Stat succeeds exactly for the root, what listing the root shows and the hidden ids, under the one revision, with the entry of that id; each error has its one cause |
| Storage.Provider.List | examples/hello-storage/provider.go:102-147 | the page of the directory's children that cursor and limit ask for, or the refusal |
| Storage.Provider.ListScale | examples/hello-storage/provider.go:150-185 | the same page of the virtual namespace, generated alone |
| Storage.Provider.Read | examples/hello-storage/provider.go:186-232 | sends the chunks its request calls for and ends as it calls for, and on a failing stream a prefix of them; no int64 overflows |
| Storage.Provider.SendRange | examples/hello-storage/provider.go:206-231 | the chunk loop sends every chunk in order until the stream fails |
| StorageLaws.PaginationCovers | examples/hello-storage/provider.go:102-185 | for any page limits, following cursors lists the children in order, each once, and is complete after at most one page per child |
| StorageLaws.WholeNamespaceIsListed | examples/hello-storage/provider.go:149-185 | a host that keeps following cursors gets all two million books, in order, and nothing else |
| StorageLaws.ListableDirectories | examples/hello-storage/provider.go:102-118 | exactly the roots and the empty chapters can be listed; a file is no directory, anything else is absent |
| StorageLaws.PagesAreFull | examples/hello-storage/provider.go:119-147 | a page starts where its cursor stands and holds as many entries as the limit, 512 at most, and the directory allow |
| StorageLaws.ForeignCursorsAreRefused | examples/hello-storage/provider.go:119-125 | a cursor that is no position of the directory is refused |
| StorageLaws.InjectedFailure | examples/hello-storage/provider.go:162-164 | the failing source serves exactly the pages that start before entry 512 |
| StorageLaws.BrokenSourceNeverCompletes | examples/hello-storage/provider.go:162-164 | the failing source is refused after its first pages and never claims to be complete |
| StorageLaws.PagesAdvance | examples/hello-storage/provider.go:165-183 | pages hold at most 512 entries and cursors stand for strictly later positions |
| StorageLaws.PagesFit | pkg/pluginproto/bloem/plugin/v1/storage_provider_grpc.pb.go:116 | the entries of every page, as protobuf encodes them, take at most 1 MiB |
| StorageLaws.ListedStatsBack | examples/hello-storage/provider.go:174-180 | every listed entry stats back to itself under its own revision |
| StorageLaws.ChildrenDiffer | examples/hello-storage/provider.go:116-119 | no child is listed under two positions |
| StorageLaws.OrdinaryReadDelivers | pkg/pluginproto/bloem/plugin/v1/storage_provider_grpc.pb.go:119-122 | a read of an ordinary file is served exactly for ranges inside the book of at most 8 MiB: its bytes in consecutive chunks of at most 128 KiB, eof on the last alone, the least number of chunks; any other range is refused with nothing sent |
| StorageLaws.TurnsDeliver | docs/storage-provider.md:324 | reading an ordinary file in turns of at most 8 MiB gives all of it, to the last byte |
| StorageLaws.OtherReads | examples/hello-storage/provider.go:186-232 | what reads of directories and of the four hidden files send, and how they end |
| StorageLaws.SuccessfulReadDeliversUnlessFaulty | examples/hello-storage/provider.go:186-232 | a successful read keeps the contract if and only if it is not a non-empty read of one of the two faulty ids |
| Slug.SlugLanguage | pkg/pluginsdk/manifest/manifest.go:30 | the slug pattern as a grammar accepts exactly the strings the character-wise test accepts |
| Slug.SlugIsPathSafe | pkg/pluginsdk/manifest/manifest.go:178-180 | a slug has no slash, no two dots in a row and no dot at either end |
| ManifestValidator.Validate | pkg/pluginsdk/manifest/manifest.go:111-168 | accepts exactly the manifests the order-free rules call good |
| ManifestValidator.ValidatePresentation | pkg/pluginsdk/manifest/manifest.go:505-587 | accepts exactly the presentations within the text and URL rules |
| ManifestValidator.ValidateWatchSyncCapability | pkg/pluginsdk/manifest/manifest.go:170-239 | accepts exactly the watch-sync capabilities the rules call good |
| ManifestValidator.ValidateConnectionSettings | pkg/pluginsdk/manifest/manifest.go:246-273 | accepts exactly the lists of good settings with distinct slug keys |
| ManifestValidator.SupportsRatedMediaType | pkg/pluginsdk/manifest/manifest.go:284-296 | some media type is not an episode, unknown ones counting as rateable |
| ManifestLaws.NetworkAccessReplaced | pkg/pluginsdk/manifest/manifest.go:298-313 | replacing, dropping or adding a network access descriptor keeps a manifest accepted if and only if it is on its capability type, and there always, and its provider matches the slug pattern |
| ManifestValidator.ValidateRequestRouterCapability | pkg/pluginsdk/manifest/manifest.go:317-380 | the descriptor is only on its capability type and its wording is single lines within limits |
| ManifestValidator.ValidateAuthModes | pkg/pluginsdk/manifest/manifest.go:388-414 | accepts exactly distinct, non-blank modes with no misspelt known mode and network without password or oauth2 |
| ManifestValidator.ValidateNetworkAuthPairing | pkg/pluginsdk/manifest/manifest.go:426-442 | network sign-in anywhere needs a network access provider somewhere |
| ManifestValidator.ReferencesCollapse | pkg/pluginsdk/manifest/manifest.go:685-712 | after the first pass a reference resolves exactly when it names a declared property |
| ManifestValidator.ValidateConfigSchema | pkg/pluginsdk/manifest/manifest.go:606-732 | accepts exactly the forms whose fields, references and sections fit the schema, whatever their order |
| ManifestEdits.BareManifest | pkg/pluginsdk/manifest/manifest.go:112-120 | a manifest of nothing but its identity is accepted exactly when it has one |
| ManifestEdits.ScanSourceIsAccepted | pkg/pluginsdk/manifest/manifest.go:111-168 | a manifest with one scan source and no networking is accepted |
| ManifestEdits.CapabilityRemoved | pkg/pluginsdk/manifest/manifest.go:426-442 | taking a capability away keeps a manifest accepted unless it was the last network access provider beside network sign-in |
| ManifestEdits.CapabilityAppended | pkg/pluginsdk/manifest/manifest.go:111-168 | one more keeps it accepted if and only if each of its parts is where it belongs and fits, given in plain terms, and it is not network sign-in without a network |
| ManifestEdits.IdReplaced | pkg/pluginsdk/manifest/manifest.go:124-180 | another id keeps it accepted if and only if it is not empty, and a slug on watch sync |
| ManifestEdits.WatchSyncReplaced | pkg/pluginsdk/manifest/manifest.go:170-273 | a watch-sync descriptor replaced, dropped or added keeps it accepted if and only if it is where it belongs and meets the limits, given element by element |
| ManifestEdits.RequestRouterReplaced | pkg/pluginsdk/manifest/manifest.go:317-380 | another request-router descriptor keeps it accepted if and only if it is on a request router with wording of single lines of at most 24 and 140 characters |
| ManifestEdits.AuthModesReplaced | pkg/pluginsdk/manifest/manifest.go:388-442 | other auth modes keep it accepted if and only if each is well spelt and listed once, and network stands without password and oauth2 beside a network |
| ManifestEdits.MisspeltModes | pkg/pluginsdk/manifest/manifest.go:394-398 | capitals, the long s and the Kelvin sign do not spell a known mode |
| ManifestEdits.MetadataReplaced | pkg/pluginsdk/manifest/manifest.go:415-420 | other metadata keeps it accepted if and only if connection_test is a boolean where an auth provider has it |
| ManifestEdits.PresentationReplaced | pkg/pluginsdk/manifest/manifest.go:505-587 | another presentation keeps it accepted if and only if its names, texts and URLs fit, given character by character |
| ManifestEdits.SchemaAppended | pkg/pluginsdk/manifest/manifest.go:606-732 | one more config schema, global, per user or of a capability, keeps it accepted if and only if its form fits the object it describes, given field by field |
| ManifestLaws.OrderDoesNotMatter | pkg/pluginsdk/manifest/manifest.go:111-168 | the verdict is the same for every order of capabilities, modes, media types, settings, form fields and sections |
| ManifestLaws.MediaTypeAdded | pkg/pluginsdk/manifest/manifest.go:208-232 | one more media type keeps an accepted manifest accepted if and only if it is specified |
| ManifestLaws.ConnectionSettingAdded | pkg/pluginsdk/manifest/manifest.go:241-273 | one more setting keeps it accepted if and only if its key is a fresh slug, it has a label and a boolean default is boolean |
| ManifestLaws.NewAuthModeAdded | pkg/pluginsdk/manifest/manifest.go:389-414 | one more mode unknown in any spelling keeps it accepted if and only if it is not blank and not listed |
| ManifestLaws.NetworkSignInIsConsistent | pkg/pluginsdk/manifest/manifest.go:405-452 | accepted network sign-in lists distinct modes, none a spelling of password or oauth2, beside a well-named network access provider |
| ManifestLaws.AcceptedNamesAreSlugs | pkg/pluginsdk/manifest/manifest.go:178-313 | in an accepted manifest the ids, namespaces and setting keys of watch sync and the providers of network access match the slug pattern |
| GoValues.ValueRoundTrip | pkg/pluginsdk/convert/convert.go:102-108 | a struct value turned into a plain Go value and back is itself |
| GoValues.StructsAreOfConvertibles | pkg/pluginsdk/convert/convert.go:102-108 | of the modelled Go values, a struct can be made of exactly those without a typed list, nil or not |
| GoValues.JsonKeepsStructs | pkg/pluginsdk/convert/convert.go:102-108 | a value that went through JSON makes the same struct value as before if and only if no typed list and no nil slice or map was in it |
| Codec.CapabilityMetadata | pkg/pluginsdk/convert/convert.go:113-185 | fills exactly the keys the descriptor has something for, with its encoding |
| Codec.CapabilityRecords | pkg/pluginsdk/convert/convert.go:25-39 | one record for each capability, in order |
| CodecLaws.RecordHoldsSchemas | pkg/pluginsdk/convert/convert.go:148-180 | a record has an entry per config schema, each with key, title, description, json_schema and required whatever their values, and the form exactly when there is one |
| CodecLaws.RecordHolds | pkg/pluginsdk/convert/convert.go:113-185 | a record holds both names always and each other part, with its own value, exactly when the descriptor has it |
| Codec.DecodeCapability | pkg/pluginsdk/convert/convert.go:41-111 | decodes part by part, the first bad part giving the error |
| CodecLaws.DecodedKeepsIdentity | pkg/pluginsdk/convert/convert.go:41-111 | a decoded descriptor has the type and id of its record and the parts its metadata has, nothing more; without metadata nothing else |
| CodecLaws.FirstBadPartIsNamed | pkg/pluginsdk/convert/convert.go:41-111 | a refused record is refused for the first bad part, lists before watch sync before request router before schemas before metadata |
| Codec.DecodeConfigSchemas | pkg/pluginsdk/convert/convert.go:187-215 | decodes every entry of either kind of list, or none |
| CodecLaws.EachEntryDecodes | pkg/pluginsdk/convert/convert.go:200-213 | an accepted list gives one schema per entry in order, an empty one for an entry that is no map |
| CodecLaws.NullMembers | pkg/pluginsdk/convert/convert.go:200-213 | null members of a schema count as absent |
| CodecLaws.JsonNames | pkg/pluginsdk/convert/convert.go:200-213 | the JSON names of schema members stand for the proto names |
| CodecLaws.BothNames | pkg/pluginsdk/convert/convert.go:200-213 | both names of one member at once are refused |
| Codec.ToStringSlice | pkg/pluginsdk/convert/convert.go:217-234 | takes either kind of list when all elements are strings |
| CodecLaws.SchemaRoundTrip | pkg/pluginsdk/convert/convert.go:160-176 | a schema comes back from its record, with nil fields and sections of its form empty, and the default keys added to it change nothing |
| CodecLaws.RecordRoundTrip | pkg/pluginsdk/convert/convert.go:25-185 | decoding the record of any descriptor gives it back, without its network access part and with nil list entries empty at every level |
| CodecLaws.AcceptedRecords | pkg/pluginsdk/convert/convert.go:41-111 | which records are accepted as made, and which once a JSON database held them, part by part |
| CodecLaws.StoredRecordDecodes | pkg/pluginsdk/convert/convert.go:41-111 | a JSON database in between changes no result, errors included, if and only if the string lists are good before exactly when they are after, and, should they and the messages be good, the same of the config schemas, and then the metadata is plain |
| CodecLaws.InPlaceIsKept | pkg/pluginsdk/convert/convert.go:187-244 | with typed lists and nils in place nothing changes; and a record gives the same descriptor before and after if and only if they are in place and the stored record is accepted |
| CodecLaws.StoringCanRepair | pkg/pluginsdk/convert/convert.go:187-198 | a concrete record refused as made and accepted once stored |
| CodecLaws.StoringCanSpoil | pkg/pluginsdk/convert/convert.go:217-234 | a concrete record accepted as made and refused once stored |
| CodecLaws.StoredRoundTrip | pkg/pluginsdk/convert/convert.go:13-17 | a descriptor also comes back from a record a JSON database held |
| CodecLaws.UnknownSchemaMemberIsIgnored | pkg/pluginsdk/convert/convert.go:13-17 | schema members of a newer SDK are dropped, not refused |
| CodecLaws.ForeignKeysAreIgnored | pkg/pluginsdk/convert/convert.go:41-111 | a metadata key of a newer SDK changes nothing, whatever it holds |
| HostBroker.HistoryExplains | pkg/pluginsdk/runtime/runtime.go:321-377 | after every history there is a client exactly when a broker was set, a stream bound after it, and an attempt since could reach it; it leads to that broker and stream |
| HostBroker.ClientIsKept | pkg/pluginsdk/runtime/runtime.go:372-377 | a dialed client is the answer of every later Host until the next rebind |
| HostBroker.OneDialPerBind | pkg/pluginsdk/runtime/runtime.go:350-370 | from one rebind to the next at most one dial succeeds, and one has exactly when there is a client |
| HostBroker.ClientComesFromItsDial | pkg/pluginsdk/runtime/runtime.go:361-370 | the cached client is that of the latest successful dial |
| ServeWiring.GrpcServe | pkg/pluginsdk/runtime/runtime.go:209-305 | without a runtime server every plugin layer registers nothing; else it panics at the first server whose registration panics, and if there is none registers each server of the fields for its own service, the optional ones for theirs, and for an auth service the server given for it or else the auth provider that implements it |
| ServeWiring.LastOptionWins | pkg/pluginsdk/runtime/serve_manifest.go:157-162 | each kind of option, the configure callback included, is settled by the last one of that kind, whatever comes between |
| ServeWiring.ManifestServeConfig | pkg/pluginsdk/runtime/serve_manifest.go:152-194 | fails exactly when an auth provider declares connection_test and nobody answers the checks, or the network mode and nobody answers the checks or network identity |
| ServeWiring.ResolvedServices | pkg/pluginsdk/runtime/storage_provider.go:15-29 | every wrapper around the plugin keeps the servers and options the startup check looked at |
| ServeWiring.ServeManifest | pkg/pluginsdk/runtime/serve_manifest.go:126-147 | starts exactly when it is not refused so and no server panics as it is registered; then the registry holds what the fields and the last options say, explicit auth servers before the auth provider, and the runtime server with the last configure callback |
| ServeWiring.OnlyAuthProviderCanBeNilPointer | pkg/pluginsdk/runtime/runtime.go:223-247 | a nil pointer answers an auth service exactly when the auth provider itself is one that implements it and no live option is given |
| NetworkIntent.Provider.Connect | examples/hello-network-access/main.go:46-66 | the whole new state and answer, for every combination of failing host calls |
| NetworkIntent.Provider.Disconnect | examples/hello-network-access/main.go:68-81 | the same for Disconnect |
| NetworkIntent.Provider.RestoreLocked | examples/hello-network-access/main.go:93-116 | restores once, after a read that succeeded, and only raises the intent |
| NetworkIntent.ConnectedIsDesired | examples/hello-network-access/main.go:34-116 | connected equals desired in every reachable state |
| NetworkIntent.QuietRun | examples/hello-network-access/main.go:83-116 | what any run of status calls and restarts makes of the intent |
| NetworkIntent.AcknowledgedIntentIsDurable | examples/hello-network-access/main.go:118-133 | an intent acknowledged with the host bound is never overturned by a late restore and is taken over by every process that has read it |
| NetworkIntent.AcknowledgedIntentIsShown | examples/hello-network-access/main.go:83-91 | the same of what GetStatus then answers, where connected and desired agree and host info is shown only when connected |
| NetworkIntent.CallOutcome | examples/hello-network-access/main.go:46-81 | a bound Connect without host info changes no more than a status call; any other call sets the intent in memory, and on the host exactly when it is bound and keeps the write |
| NetworkIntent.CallAnswers | examples/hello-network-access/main.go:46-81 | a successful call answers with its intent, connected to a bound host with the info given for that call |
| NetworkIntent.InfoIsKept | examples/hello-network-access/main.go:83-91 | once the store has been read, later statuses of the process stay the same |
| NetworkIntent.SurvivesRestart | examples/hello-network-access/main.go:121-124 | an acknowledged intent survives a restart if and only if the host was bound or its store agreed |
| NetworkIntent.UnboundConnectIsForgotten | examples/hello-network-access/main.go:46-66 | a concrete acknowledged Connect that a restart forgets |
| NetworkIntent.LateRestoreOverturns | examples/hello-network-access/main.go:93-116 | in one process only a Disconnect acknowledged with the host unbound, over an unread stored connect, is overturned |

## Left out

- Generated message code, gRPC, the go-plugin handshake, process start and executable hashing: no logic of the SDK's own, or foreign libraries.
- `runtimehost`, `httpclient`, `config`, `imagevariant`, `runtimedefault`, `cmd/compat-probe` and the two smaller examples: thin wrappers or constants.
- ManifestValidator.Validate: returns the verdict alone; the texts of the errors, and so which fault is named first, are not modelled.
- `ValidateCatalogPresentation`, `RegisterHTTPRoutes` and `RegisterAssets`: one-branch checks on top of `Validate`.
- JSON schema and URL parsing and protojson of whole messages: parameters; the codec laws assume that protojson gives messages back with nil list entries empty, and that numbers are finite.
- ScanSource.PollChanges: file sizes and offsets are natural numbers; that they stay below 2^63, which an `int64` file size guarantees, is a hypothesis of the laws that print markers.
- The two goroutine-safe singletons hold their mutex for the whole call, so each call is one step; no interleaving inside a call is modelled.
- Storage.Provider.Read: the `blocking` id waits for its caller to cancel; the model answers at once with the cancellation. The zip construction, the environment sentinel and `Describe` are not modelled.
- StorageLaws.OrdinaryReadDelivers: holds for any book the `int64` range can address; the real book is about five megabytes.
- NetworkIntent.Provider.GetStatus: the status carries the state, the intent and the host info; the listener origins derived from the host info are not modelled.
- GoValues.StructsAreOfConvertibles: Go integers, `[]byte` and other types that neither the encoder nor JSON puts into a record are not among the modelled values.
- Tailing.ExactlyOnce: an operator's edit that clears the marker starts a new run, with the empty marker over the log as it is; runs are not joined across such edits.
- ServeWiring.GrpcServe: calling a registered server is not modelled; whether the registration of a given server panics is part of the server. The broker it sets is in `HostBroker`.
