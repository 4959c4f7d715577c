# Verified models of the plugin SDK

Dafny models of the five places in this repository where plugin code keeps state, and proofs of
what they promise. `dafny verify dfyconfig.toml` checks everything.

| files | what they model |
|---|---|
| `Bytes`, `Decimal`, `Lines` | byte strings and white space, decimal int64 text, complete lines and the changes reported for them |
| `ChangeLog`, `ScanSource` | the change-log file with its buffered reader, and `PollChanges` with its two readers of the log |
| `PollProtocol`, `OverlappingPolls` | whole runs of polls, appends, moves and replacements, with the host that stores the markers |
| `HostBroker` | the cached connection to the host |
| `NetworkAccess` | the connect and disconnect intent of the network access example |
| `Convert` | capability descriptors as stored records, and back |
| `Slug`, `ConfigForm`, `Manifest` | manifest validation |
| `ServeManifest` | options, startup checks and service registration |

Code that changes things step by step is modelled by classes and methods, each proved against a
function that gives its effect; the lemmas are about those functions. What the surroundings decide
(which bytes a read delivers, whether a call to the host works, what other processes do to a file)
is left open, so a method is proved for every choice. What a poll, a dial or an RPC ran into is
recorded in ghost values (`Trace`, `lucky`, `Luck`), and a run is any sequence of such steps.

Assumptions, in the order of the files:

- A log is only appended to while one poll runs. It may be moved away or brought back before every
  access of the poll, any access may fail, and reads deliver any non-empty chunk. File sizes fit in
  an int64. Between polls the log may be replaced by any other.
- The host stores the marker of every answer it acts on, and keeps the old one otherwise.
- Every method of the host-broker state and every RPC of the network access example runs under one
  mutex, so threads appear as sequences of whole calls. A dial on a live stream may fail; on an
  expired one it always does.
- A failed write to the host's instance state may or may not have taken effect.
- The protobuf JSON codecs of the nested messages are parameters, known only to write JSON that
  they read back. A map key in `Convert` stands for its literal name.
- JSON schema decoding, case folding and blankness are parameters of manifest validation.
- The gRPC server is new: none of the plugin's services is on it yet.

## Where code and documentation differ

The models follow the code.

- `docs/scan-source.md:159-161` asks that two polls with the same marker return the same changes,
  and the code's re-poll of a grown log should extend the list. It does for every marker within the
  log, but one beyond its end may come to lie past a newline later: `RepeatedPollExtends` gives the
  exact condition.
- `docs/scan-source.md:162-167` and `examples/hello-scan-source/main.go:83` say that a marker this
  plugin did not write leads to the end of the log. Spellings such as `-0`, `+5` and `007` are read
  as offsets instead (`ResyncExactly`, `ForeignMarkerReplays`).
- `docs/scan-source.md:268-271` calls overlapping polls harmless. They lose nothing exactly when the
  stored marker is an offset within the log (`OverlapIsHarmlessExactly`). Overlapping first polls can
  skip a line written between their answers (`FirstPollsMayLoseALine`), and so can polls sent a marker
  that lies past the end of a truncated log (`MarkerPastTheEndMayLoseALine`).
- `pkg/pluginsdk/runtime/runtime.go:395-402` says `Host` is nil when the dial failed at bind time,
  and that its first call dials. Binding dials, and `Host` dials again for as long as there is no
  client (`HostNilExactly`, `LazyRetryConnects`).
- `pkg/pluginsdk/runtime/runtime.go:236-241` says a nil pointer counts as no server at the startup
  check. That holds for options; an auth provider that is a nil pointer passes and is registered
  (`NilAuthProviderPasses`, and `NilAuthProviderStarts` for a valid manifest).
- `proto/silo/plugin/v1/watch_sync_provider.proto:27` says plugins with DEVICE_CODE register both
  services; neither validation nor startup checks this. Nor does startup look for the server of the
  `network_access_provider.v1` capability that network mode requires. `OtherServersAreNotChecked`
  says exactly when they are registered, `StartsWithoutItsServices` gives a valid manifest.
- `examples/hello-network-access/main.go:118-124` returns write failures so that the intent is not
  lost unnoticed. While the host is unbound an answered intent is not written at all
  (`AnsweredIntentSurvives`, `AnsweredDisconnectHolds` give the exact conditions).

## Model

| member | source | states |
|---|---|---|
| Bytes.TrimSpaceSplits | examples/hello-scan-source/main.go:193 | Trimming a line removes white space at both ends and nothing else: what is removed trims to nothing by itself. |
| Bytes.TrimSpace | examples/hello-scan-source/main.go:52 | No white-space rune, of one to three bytes, is left at either end. |
| Bytes.WhiteSpaceRunes | examples/hello-scan-source/main.go:193 | What counts as white space at either end are exactly the UTF-8 encodings of the 25 code points Go treats so. |
| Decimal.FormatParses | examples/hello-scan-source/main.go:110 | Every offset the plugin prints is read back as the same int64. |
| Decimal.PrintedExactly | examples/hello-scan-source/main.go:81-86 | The strings some offset prints to are exactly the digit strings without superfluous zero that parse. |
| Decimal.ParsesExactly | examples/hello-scan-source/main.go:81-86 | A string parses to n if and only if n is an int64 and the string is a sign or none, any zeros, and the digits that print its magnitude. |
| Decimal.Positional | examples/hello-scan-source/main.go:81 | The value of digits is positional in base ten. |
| Lines.ChangeFor | examples/hello-scan-source/main.go:117-132 | A trailing slash and only that makes a subtree; the path loses its trailing slashes and nothing else, and is empty exactly for a line of slashes. |
| Lines.ReportedLineByLine | examples/hello-scan-source/main.go:181-196 | For any whole lines and an unfinished rest, the k-th change is that of the trimmed text of the k-th line that is not blank, with none missing. |
| Lines.FileLine | examples/hello-scan-source/main.go:117-132 | A path written as a line of its own is reported as that file. |
| Lines.SubtreeLine | examples/hello-scan-source/main.go:117-127 | A line ending in a slash is reported as the subtree before it, without slash or newline. |
| Lines.RawLinesSplit | examples/hello-scan-source/main.go:171-197 | Cutting a text at a line start cuts its list of complete lines in two and no line. |
| Lines.RawLinesCover | examples/hello-scan-source/main.go:168-171 | The complete lines put together are the text up to its last newline. |
| Lines.RawLinesOfFlatten | examples/hello-scan-source/main.go:168-171 | Whole lines followed by an unfinished one are read back exactly as they were written. |
| Lines.ReportedTelescopes | examples/hello-scan-source/main.go:171-197 | Reading to a line end and then on reports the same changes as reading once. |
| ChangeLog.LogFile.Read | examples/hello-scan-source/main.go:212 | Any number of the next bytes, exactly as the log holds them, and end of file only where the log ends. |
| ChangeLog.LineReader.ReadString | examples/hello-scan-source/main.go:183-188 | Returns the log's next whole line at the reader's offset, or at end of file the unfinished rest, however reads were chopped and the log grew. |
| ScanSource.ReadAppended | examples/hello-scan-source/main.go:168-197 | The non-blank complete lines from the offset on and the offset past the last of them, of the log as the last read left it; nothing on failure. |
| ScanSource.CollectLines | examples/hello-scan-source/main.go:181-196 | The loop over an open reader finds all complete lines from its position and where they end. |
| ScanSource.CompleteLinesEnd | examples/hello-scan-source/main.go:199-224 | The block scanner returns the place past the last newline, 0 if there is none, for every way of chopping the log into reads. |
| ScanSource.BlockEnd | examples/hello-scan-source/main.go:213-216 | One more block moves the end of the complete lines exactly when it holds a newline, and to its last one. |
| ScanSource.ReadersAgree | examples/hello-scan-source/main.go:168-224 | From any offset the line reader stops at the larger of that offset and the block scanner's answer; from 0 they agree. |
| ScanSource.ReadsTelescope | examples/hello-scan-source/main.go:171-197 | Reading from a line start and, once the log has grown, on from the returned offset gives the lines and the end of one read of the grown log. |
| ScanSource.FollowsNewline | examples/hello-scan-source/main.go:144-156 | Answers whether the byte before the offset is a newline, and fails when the log ends before it. |
| ScanSource.ResyncToEnd | examples/hello-scan-source/main.go:158-166 | No changes, and the marker of the last complete line's end. |
| ScanSource.PollChanges | examples/hello-scan-source/main.go:51-115 | For every interleaving of appends and moves with its file accesses, a poll gives the answer or error that the contents met at those accesses call for. |
| PollProtocol.OwnMarkerIsStable | examples/hello-scan-source/main.go:81-102 | On a log only appended to, a marker the plugin wrote takes neither the resynchronization nor the restart from 0. |
| PollProtocol.FirstAnswer | examples/hello-scan-source/main.go:61-110 | Any answer, for any marker whatever, reports exactly the lines between the place the marker stands for and the last complete line, and marks that end. |
| PollProtocol.StepKeepsConsistent | examples/hello-scan-source/main.go:51-115 | Appends, accepted, failed and dropped polls, replacement and a cleared marker all keep delivery equal to the lines between epoch start and marker. |
| PollProtocol.RunKeepsConsistent | examples/hello-scan-source/main.go:51-115 | The same for every run of such steps. |
| PollProtocol.ExactlyOnce | examples/hello-scan-source/main.go:51-115 | Over any run of appends and polls the delivered changes are those of the non-blank complete lines between the first and the current marker, each once, in order; the first marker is the one the first answered poll of this log calls for. |
| PollProtocol.TruncationEpochs | examples/hello-scan-source/main.go:87-102 | After a replacement in any history, delivery is one stretch of the new log, from its first line unless, when the first answered poll looked, it was at least as long as the old marker with a newline just before it, and then from the marker. |
| PollProtocol.CaughtUp | examples/hello-scan-source/main.go:104-114 | An accepted answer from a readable log leaves only an unfinished line behind the marker. |
| PollProtocol.LineRun | examples/hello-scan-source/main.go:168-171 | The text between two line starts is a contiguous run of the log's complete lines. |
| PollProtocol.NoFragments | examples/hello-scan-source/main.go:76-114 | For any marker string, what a poll reports comes from the last lines of the log, each newline-terminated and unbroken, never from part of one. |
| PollProtocol.AnswerLineByLine | examples/hello-scan-source/main.go:104-114 | A poll's changes are, in order, those of the trimmed texts of all non-blank whole lines from the marker's place on. |
| PollProtocol.DeliveredLineByLine | examples/hello-scan-source/main.go:51-115 | Over any run what was delivered are, in order, the changes of the trimmed texts of all non-blank whole lines between first and current marker. |
| PollProtocol.MissingLog | examples/hello-scan-source/main.go:61-72 | A log that is not there answers `0` to an empty marker and to `0`, and fails for any other. |
| PollProtocol.WrittenLaterIsDelivered | examples/hello-scan-source/main.go:62-67 | After such an answer, whatever is written later is delivered from the log's first line on. |
| PollProtocol.MissingLogKeepsMarker | examples/hello-scan-source/main.go:68-72 | A log that has gone missing leaves marker and delivery as they were. |
| PollProtocol.FailsExactly | examples/hello-scan-source/main.go:52-102 | When a poll fails, with each of its errors, told from the path, the marker and the accesses that failed. |
| PollProtocol.OffsetExactly | examples/hello-scan-source/main.go:81-86 | The markers read as an offset are exactly the int64 spellings of it, sign and leading zeros included. |
| PollProtocol.EmittedMarker | examples/hello-scan-source/main.go:108-110 | Every marker in an answer is non-empty, canonical, parses back to itself, lies in the log and cuts no line. |
| PollProtocol.RepeatedPollExtends | docs/scan-source.md:159-161 | With growth at any time during and between them, later polls with the same marker extend the earlier list if and only if the answer keeps its place: the marker was foreign or within the log, or later never just past a newline that hides something reported. |
| PollProtocol.ResyncExactly | examples/hello-scan-source/main.go:81-86 | A marker reports nothing whatever the log holds if and only if it is no non-negative int64 in decimal. |
| PollProtocol.ForeignMarkerReplays | examples/hello-scan-source/main.go:81-86 | The marker `-0`, which the plugin never writes, replays the whole log. |
| PollProtocol.Source.RunPoll | docs/scan-source.md:152-161 | One poll by the host, kept or dropped, is exactly one step of the runs above. |
| OverlappingPolls.EventKeepsNoGaps | docs/scan-source.md:268-271 | Sending, answering in any order, failing and dropping overlapping polls keeps the delivered stretches gapless up to every marker stored or under way, once the stored marker is within the log. |
| OverlappingPolls.AtLeastOnce | docs/scan-source.md:268-271 | From any stored marker within the log on, also one left from before a truncation, overlapping polls deliver whole lines only and leave no byte out between the place it stands for and the current marker. |
| OverlappingPolls.OverlapIsHarmlessExactly | docs/scan-source.md:268-271 | Every run of overlapping polls is without gaps if and only if the stored marker is an offset within the log. |
| OverlappingPolls.ForeignMarkerLosesBytes | examples/hello-scan-source/main.go:76-86 | With an empty or foreign marker, on any log, two overlapping polls can leave bytes out. |
| OverlappingPolls.MarkerPastTheEndLosesBytes | examples/hello-scan-source/main.go:87-102 | So they can with any marker past the end of any log, when the log grows to just that length in between. |
| OverlappingPolls.FirstPollsMayLoseALine | docs/scan-source.md:268-271 | Two overlapping first polls can move the marker past a line that is never delivered. |
| OverlappingPolls.MarkerPastTheEndMayLoseALine | examples/hello-scan-source/main.go:87-102 | Two polls sent the marker 5 of a longer, since truncated log deliver one of the two lines written since and store a marker past both. |
| HostBroker.StepKeepsInv | pkg/pluginsdk/runtime/runtime.go:340-387 | Every call keeps the cached client equal to the connection its history of dials calls for, on the current broker and stream. |
| HostBroker.Coherent | pkg/pluginsdk/runtime/runtime.go:321-387 | In every run a cached client was dialed on the current broker and the current non-zero stream. |
| HostBroker.OneDialPerBinding | pkg/pluginsdk/runtime/runtime.go:324-330 | Between two rebinds no dial is tried after one has succeeded. |
| HostBroker.OneClientPerBinding | pkg/pluginsdk/runtime/runtime.go:324-330 | Between two rebinds all threads that get a client get the same one, and from then on always. |
| HostBroker.HostNilExactly | pkg/pluginsdk/runtime/runtime.go:369-387 | Host answers nil if and only if the calls so far bound no stream or every dial since the bind has failed. |
| HostBroker.BoundByCalls | pkg/pluginsdk/runtime/runtime.go:340-367 | A stream is bound if and only if the calls bound it after its broker was given, with no rebind since. |
| HostBroker.BindServes | pkg/pluginsdk/runtime/runtime.go:340-387 | From the start: a broker is given, a stream live on it is bound and dialed; every call until the next rebind answers a client on that broker and stream. |
| HostBroker.NoBrokerNoClient | pkg/pluginsdk/runtime/runtime.go:340-347 | After the broker is taken away every call answers nil until another is given. |
| HostBroker.OfferLasts | pkg/pluginsdk/runtime/runtime.go:349-354 | The broker keeps an offered stream for five seconds, and longer only if it is offered again. |
| HostBroker.EagerDialLasts | pkg/pluginsdk/runtime/runtime.go:349-367 | A bind that dials a live stream serves every later call until the next rebind, however long the plugin idles. |
| HostBroker.LateDialNeverWorks | pkg/pluginsdk/runtime/runtime.go:351-359 | Once an undialed stream has expired, every call answers nil for good. |
| HostBroker.LazyRetryConnects | pkg/pluginsdk/runtime/runtime.go:369-387 | After a bind whose dial failed and any calls and time since, there is a client if and only if the dial of some call worked before the stream's deadline. |
| HostBroker.PluginHostState.SetBroker | pkg/pluginsdk/runtime/runtime.go:340-347 | One rebind step: stream and client of the old broker are dropped. |
| HostBroker.PluginHostState.SetBrokerID | pkg/pluginsdk/runtime/runtime.go:349-367 | One rebind step that dials at once. |
| HostBroker.PluginHostState.DialLocked | pkg/pluginsdk/runtime/runtime.go:369-380 | Dials exactly when bound and unconnected; a failure leaves the cache as it was. |
| HostBroker.PluginHostState.Host | pkg/pluginsdk/runtime/runtime.go:382-387 | One step of a thread, answering the client that is cached after it. |
| NetworkAccess.StatusExposesListeners | examples/hello-network-access/main.go:144-176 | A connected status has the stub's name and address, exposes every host listener in order and takes its origin from an API listener if there is one; a disconnected one exposes nothing. |
| NetworkAccess.StatusMatchesIntent | examples/hello-network-access/main.go:46-116 | In every reachable state, after failed calls too, a status says connected exactly when that is desired. |
| NetworkAccess.ConnectAnswer | examples/hello-network-access/main.go:46-66 | Connect answers exactly when every host call it needs works, with the listeners just fetched; without host info no intent is adopted or written. |
| NetworkAccess.DisconnectAnswer | examples/hello-network-access/main.go:68-88 | Disconnect answers exactly when the write it owes succeeds, and is disconnected either way; a status is always answered. |
| NetworkAccess.ListenersAreLastFetched | examples/hello-network-access/main.go:46-116 | In any run a connected status shows the names and port origins of the last host info this process fetched, by a connect or by a restore, and none without it. |
| NetworkAccess.RestoredExactly | examples/hello-network-access/main.go:90-116 | A process has restored exactly once some call since its start reached the host and could read. |
| NetworkAccess.DurableIntent | examples/hello-network-access/main.go:46-133 | Over any run with failures and restarts, while the last write tried has succeeded, every status after the restore shows that write's intent. |
| NetworkAccess.RestartRestoresACandidate | examples/hello-network-access/main.go:90-133 | A restarted process restores the last acknowledged intent or one tried since, never anything else. |
| NetworkAccess.FailedReadsKeepIntent | examples/hello-network-access/main.go:101-115 | Failed reads leave no trace: the first read that works restores a stored intent to connect. |
| NetworkAccess.AnsweredIntentSurvives | examples/hello-network-access/main.go:118-124 | An answered intent survives a restart if and only if the host was bound when it was due to be written, or the store held it already. |
| NetworkAccess.AnsweredDisconnectHolds | examples/hello-network-access/main.go:93-124 | An answered disconnect holds at the next status if and only if the host was bound, the process had restored, or the store did not say connected. |
| NetworkAccess.Provider.Connect | examples/hello-network-access/main.go:46-66 | One connect step of the runs above, on memory and store. |
| NetworkAccess.Provider.Disconnect | examples/hello-network-access/main.go:68-81 | One disconnect step. |
| NetworkAccess.Provider.GetStatus | examples/hello-network-access/main.go:83-88 | One status step. |
| NetworkAccess.Provider.RestoreLocked | examples/hello-network-access/main.go:90-116 | Restores once per process, and not at all when the host is missing or the read fails. |
| NetworkAccess.Provider.PersistLocked | examples/hello-network-access/main.go:118-133 | Writes the desired flag, reports a failure that may have been stored, and does nothing without a host. |
| NetworkAccess.Provider.StatusLocked | examples/hello-network-access/main.go:144-176 | The loop over the host's listeners yields the status of the flags. |
| Convert.StoreTwice | pkg/pluginsdk/convert/convert.go:187-234 | Storing a value a second time changes nothing more. |
| Convert.RestoredKeys | pkg/pluginsdk/convert/convert.go:168-177 | Setting the scalar keys over the message's JSON yields an entry with all five, default values included, and the form exactly when the schema has one. |
| Convert.EntryKeys | pkg/pluginsdk/convert/convert.go:153-179 | A schema's entry has all five scalar keys with their values and the form exactly if there is one; a nil schema's entry is empty. |
| Convert.EncodedRecord | pkg/pluginsdk/convert/convert.go:113-185 | Name and description are always keys; each other key is there exactly if its field is set, in the in-process shape. |
| Convert.EveryKeyIsNeeded | pkg/pluginsdk/convert/convert.go:118-183 | Without any key but these two a record no longer decodes to its descriptor: no superfluous key is written. |
| Convert.AsMapSpells | pkg/pluginsdk/convert/convert.go:181-183 | Non-finite numbers of a Struct become their names, and nothing else changes. |
| Convert.SchemaRoundTrip | pkg/pluginsdk/convert/convert.go:153-180 | Every config schema comes back as it was, a nil one as the empty schema. |
| Convert.StructOfObject | pkg/pluginsdk/convert/convert.go:102-108 | A Struct takes plain maps over unchanged, and whatever else it accepts differs from what storage makes of it. |
| Convert.AsMapIsJson | pkg/pluginsdk/convert/convert.go:181-183 | A Struct turned into a map is JSON at every depth, and is unchanged exactly when it holds no NaN or infinity. |
| Convert.RoundTrip | pkg/pluginsdk/convert/convert.go:41-185 | Decoding the record of a descriptor gives it back up to the network-access field, nil schemas and non-finite numbers. |
| Convert.UnchangedExactly | pkg/pluginsdk/convert/convert.go:41-185 | A descriptor comes back unchanged if and only if it has none of these three. |
| Convert.StorageShapeIndependence | pkg/pluginsdk/convert/convert.go:187-245 | A record of storable shape, without nil slices and nil maps that would turn into null, decodes to the same descriptor or error before and after JSON storage. |
| Convert.StorageExactly | pkg/pluginsdk/convert/convert.go:41-111 | For any record JSON can write, nil slices and maps included, storage leaves the decoder's result unchanged, error included, if and only if decoding fails or ends before it meets a shape that storage changes (or a later value fails for the same reason). |
| Convert.StorageMayAccept | pkg/pluginsdk/convert/convert.go:187-198 | A list of strings given as schemas is refused when fresh and accepted once stored. |
| Convert.StorageMayRefuse | pkg/pluginsdk/convert/convert.go:217-234 | A nil list of strings is accepted when fresh and refused once stored as null. |
| Convert.StoredRoundTrip | pkg/pluginsdk/convert/convert.go:25-185 | Fresh records have storable shape, so the round trip also holds through storage. |
| Convert.UnknownKeysAreIgnored | pkg/pluginsdk/convert/convert.go:41-111 | Metadata keys the decoder does not know change neither its result nor its errors. |
| Convert.UnknownSchemaKeysAreIgnored | pkg/pluginsdk/convert/convert.go:13-17 | Keys a config schema entry does not know, in either spelling, change nothing as long as JSON can write their values, and are an error otherwise. |
| Convert.ToStringSlice | pkg/pluginsdk/convert/convert.go:217-234 | Accepts string lists and lists of strings only, nil ones as empty, element by element in order. |
| Convert.TextsExactly | pkg/pluginsdk/convert/convert.go:217-234 | Which values are lists of strings, the strings they hold, and the error of the others. |
| Convert.SchemasExactly | pkg/pluginsdk/convert/convert.go:187-215 | Which values are lists of schemas, the schemas they hold in order, and the error of the others. |
| Convert.SchemaDecodes | pkg/pluginsdk/convert/convert.go:200-212 | Which maps decode to a config schema, and what each of its fields then is, in either spelling. |
| Convert.DecodeConfigSchemas | pkg/pluginsdk/convert/convert.go:187-215 | Accepts both list shapes, nil ones as empty, and decodes each entry, failing when any fails or is a nil map. |
| Convert.DecodeCapability | pkg/pluginsdk/convert/convert.go:41-111 | Sets the descriptor field by field to the decoded record, with the first error in the code's order. |
| Convert.DecodesExactly | pkg/pluginsdk/convert/convert.go:41-111 | A record decodes if and only if each value that must have a shape has it, key by key. |
| Convert.DecodedFields | pkg/pluginsdk/convert/convert.go:41-111 | What each field of the decoded descriptor says, told from the record; names that are no strings count as absent. |
| Convert.FirstErrorDecides | pkg/pluginsdk/convert/convert.go:56-108 | A record that does not decode gives the error of its first value at fault. |
| Convert.NoMetadata | pkg/pluginsdk/convert/convert.go:42-48 | A record without metadata keeps its type and id and nothing else. |
| Convert.CapabilityMetadata | pkg/pluginsdk/convert/convert.go:113-185 | Fills the map key by key, so that exactly the present fields have keys; a nil descriptor is an error. |
| Convert.CapabilityRecordsFromManifest | pkg/pluginsdk/convert/convert.go:25-39 | One record per capability, in manifest order, or an error when any descriptor is nil. |
| Slug.PatternIsSlug | pkg/pluginsdk/manifest/manifest.go:30 | The language of the slug pattern is exactly the non-empty strings of lowercase letters, digits and separators with no separator at an end or beside another. |
| ConfigForm.ValidateConfigSchema | pkg/pluginsdk/manifest/manifest.go:629-755 | Accepts exactly the schemas without a form, or whose form fits the declared properties of a decodable object schema. |
| ConfigForm.CheckReferences | pkg/pluginsdk/manifest/manifest.go:705-716 | After pass one the lookup in fields or properties comes down to membership in the properties. |
| ConfigForm.CheckFields | pkg/pluginsdk/manifest/manifest.go:651-701 | Pass one accepts exactly distinct, declared keys with fitting control and default, and collects those keys. |
| ConfigForm.OrderFree | pkg/pluginsdk/manifest/manifest.go:703-755 | Permuting fields or sections, whatever refers forward or back, never changes acceptance. |
| ConfigForm.RefusedForms | pkg/pluginsdk/manifest/manifest.go:648-754 | A form is refused if and only if it has one of the listed faults, each told from the form and the properties. |
| ConfigForm.RefusedSchemas | pkg/pluginsdk/manifest/manifest.go:629-650 | Only schemas with a form are refused, for the form or an undecodable JSON schema. |
| Manifest.Validate | pkg/pluginsdk/manifest/manifest.go:115-178 | Accepts exactly the manifests that satisfy every rule, over all capabilities and all three kinds of schema; refuses nil. |
| Manifest.RefusedManifests | pkg/pluginsdk/manifest/manifest.go:115-457 | A manifest is refused if and only if it has one of the listed faults, told with the literal names and numbers and the slug pattern. |
| Manifest.ValidateAuthProviderCapability | pkg/pluginsdk/manifest/manifest.go:397-436 | Accepts exactly mode lists without blanks, case variants and duplicates, without credentials beside network, and a boolean connection test. |
| Manifest.ValidateNetworkAuthPairing | pkg/pluginsdk/manifest/manifest.go:438-457 | Accepts exactly when a capability in network mode comes with a network access capability, in any order. |
| Manifest.ValidateWatchSyncCapability | pkg/pluginsdk/manifest/manifest.go:180-250 | Accepts exactly the descriptors that meet the watch sync rules, and none on other types. |
| Manifest.ValidateConnectionSettings | pkg/pluginsdk/manifest/manifest.go:252-283 | Accepts exactly settings with distinct slug keys, labels and boolean defaults of boolean settings; nil ones are skipped. |
| Manifest.SupportsRatedMediaType | pkg/pluginsdk/manifest/manifest.go:291-306 | Finds a movie, a series or a media type unknown to this SDK if the list has one. |
| Manifest.SettingKeys | pkg/pluginsdk/manifest/manifest.go:256-270 | Accepted settings have pairwise distinct keys in the slug pattern's language. |
| Manifest.NetworkModeIsExclusive | pkg/pluginsdk/manifest/manifest.go:417-457 | In a valid manifest network mode excludes password and oauth2 and comes with a network access capability. |
| Manifest.OpenVocabulary | pkg/pluginsdk/manifest/manifest.go:39-53 | A new mode, at any place in any capability of a valid manifest, keeps it valid if and only if the type ignores modes, or it is not blank, no case variant of a known one and not listed yet. |
| ServeManifest.LastOptionWins | pkg/pluginsdk/runtime/serve_manifest.go:167-172 | The last option of a kind decides, whatever stands around it; nil options are skipped. |
| ServeManifest.UnsetStaysEmpty | pkg/pluginsdk/runtime/serve_manifest.go:167-172 | What no option sets stays empty. |
| ServeManifest.ManifestServeConfig | pkg/pluginsdk/runtime/serve_manifest.go:159-218 | Refuses if and only if a declared service has no server, naming the first one missing; otherwise serves the checked servers with a runtime for this manifest. |
| ServeManifest.RegisterServers | pkg/pluginsdk/runtime/runtime.go:259-315 | Rebinds the broker in any case; without a runtime registers nothing, else exactly the services that have a server, none twice. |
| ServeManifest.GRPCServer | pkg/pluginsdk/runtime/runtime.go:216-234 | Both kinds of plugin set register exactly the services that have a server, each with its resolved server, and none twice. |
| ServeManifest.Serve | pkg/pluginsdk/runtime/serve_manifest.go:142-157 | From servers and options to registration: starts exactly when the check accepts, and then registers what the check saw. |
| ServeManifest.DeclaredIsRegistered | pkg/pluginsdk/runtime/serve_manifest.go:162-218 | Valid and accepted manifests find every declared service registered: both auth services for network mode, the checks for connection tests, a non-nil server for the configuration check. |
| ServeManifest.StartsExactly | pkg/pluginsdk/runtime/serve_manifest.go:173-206 | What it takes to start, told from the manifest's own declarations and the servers at hand. |
| ServeManifest.EachUnderItsName | pkg/pluginsdk/runtime/runtime.go:216-315 | Each of the thirteen servers and the two plain options is registered for its own service if present, and only then. |
| ServeManifest.AuthServicesExactly | pkg/pluginsdk/runtime/runtime.go:236-251 | An auth service is answered by the working option, else by an auth provider that implements it, else by none. |
| ServeManifest.LastOptionIsServed | pkg/pluginsdk/runtime/runtime.go:236-251 | A working server passed last as an option is the one registered, also where the auth provider could stand in. |
| ServeManifest.NilAuthProviderPasses | pkg/pluginsdk/runtime/runtime.go:236-257 | An auth service is answered by a nil pointer if and only if the auth provider is one that implements it and no working option was passed; the startup check then misses nothing. |
| ServeManifest.NilAuthProviderStarts | pkg/pluginsdk/runtime/runtime.go:236-257 | A valid manifest in network mode is accepted with a nil pointer for its auth provider, which then answers both auth services. |
| ServeManifest.OtherServersAreNotChecked | pkg/pluginsdk/runtime/serve_manifest.go:173-207 | Acceptance depends on the auth provider and three options alone; the overlay and device authorization services are registered if and only if their servers were supplied, whatever the manifest declares. |
| ServeManifest.StartsWithoutItsServices | pkg/pluginsdk/runtime/serve_manifest.go:173-207 | A valid manifest with network mode, an overlay capability and DEVICE_CODE starts with neither service registered. |
| ServeManifest.RegisteredImplements | pkg/pluginsdk/runtime/runtime.go:242-251 | If each field and option is absent or implements the service of its Go type, each registered server implements the service it is registered for. |

## Left out

- A log replaced or truncated while one poll reads it, and more than one configured path.
- ChangeLog.LogFile.Read: a file system error is only an error; its text is not modelled.
- What the host does with changes: path rewriting, debouncing, scans, poll intervals.
- Invalid UTF-8 at the ends of a line, where Go trims rune by rune; the white-space runes are given by their encodings.
- The messages of validation errors and which of several violations is reported; only acceptance is modelled.
- Presentation, URL and wording checks, which enter manifest validation as verdicts.
- Nil entries in a manifest's capability list.
- JSON schema decoding, Unicode case folding and blankness, which are parameters.
- RegisterHTTPRoutes, RegisterAssets, Asset, ValidateCatalogPresentation, loading, checksums and the manifest subcommand: straight-line code around Validate.
- A log replaced while overlapping polls are under way; each epoch of them starts with none.
- Go values in metadata other than those the encoder and JSON produce, such as integers and byte slices.
- Messages the protobuf JSON codec cannot write (a NaN in a form's default value): the encoder's error for them.
- Convert.RoundTrip: strings that are not valid UTF-8, which `structpb` refuses, are no values of the model.
- Copying of slices in `toStringSlice` and `capabilityMetadata`: records are values, so sharing cannot be seen.
- ReportNetworkAccessStatus and logging, which change neither memory nor store.
- The provider version in a network status, a constant.
- Serving by go-plugin and gRPC beyond the table of services, generated code, the HTTP client and the other host calls.
- What a service does once called: a registered server that embeds the generated stub without overriding anything counts as a server.
