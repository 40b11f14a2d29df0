# Verified models of the kof operator

kof is a Kubernetes observability stack; its operator exports audit logs to an object store, wires
storage nodes into query clusters, merges alert rules, collects metrics from many clusters and
watches files for drift. This project models the parts of the operator whose correctness ranges over
whole runs, interleavings or trees, and proves it. All source paths below are under
`kof-operator/internal/`.

`dafny verify dfyconfig.toml` checks everything.

## Components

| files | what they model |
|---|---|
| `Text.dfy`, `Hex.dfy`, `JsonText.dfy`, `CanonicalJson.dfy` | string order, sorted key lists, walks over sets, split and join; hexadecimal digits; JSON tokens and Go's escaping; the canonical JSON printer and a parser for it |
| `Unflatten.dfy`, `AuditEvents.dfy`, `Manifests.dfy` | dotted keys to nested objects, one audit event per line, the streaming statistics, the manifest document |
| `KeyLayout.dfy`, `ExportSite.dfy`, `ExportProtocol.dfy`, `AuditRuns.dfy`, `AuditLimits.dfy`, `AuditExporter.dfy` | object names, what the protocol relies on, the export of one window with failures and crashes, sequences of runs and the manifest chain, where it falls short, and the exporter on a mutable bucket |
| `StorageArgs.dfy`, `FinalizerProtocol.dfy`, `FinalizerSync.dfy` | positional storage-node arguments; the VMStorageConnection controller interleaved with users; what its reconciles achieve and never touch |
| `AlertRules.dfy`, `AlertFields.dfy`, `AppendMap.dfy`, `AlertFiles.dfy`, `AlertHeap.dfy` | layered alert rules as values and field by field, the files written from them, and all of it on heap-allocated label maps |
| `PipePipeline.dfy`, `MetricsFanIn.dfy` | goroutines joined by a pipe; collectors joined by a WaitGroup and a channel |
| `RegionalChoice.dfy`, `Baseline.dfy` | choices and hashes that must stick across reconciles and restarts |

How the parts are built:

* **Audit export.** `Attempt` says what one `exportWindow` call does to the store for every answer the
  world may give (`Env`): failed checks, a source outage, a response that cannot be read, an upload
  that leaves a partial object, puts that fail before or after taking effect, a crash between any two
  writes. `Apply` performs the effect. The protocol is proved for every `Site`, which is a hash, a
  signature, a printer and reader of manifests, and what streaming a response may come to; `SiteOf` is
  the exporter's own, made of the canonical JSON printer and of `StreamDataToS3`. The class `Exporter`
  performs the same calls on a mutable bucket, with `CompressEvents` running into the upload, and its
  `Run` keeps every invariant with nothing assumed of the responses. `HonestRuns` in a lemma says only
  that the result of streaming recorded for a response is one that its lines can have.
  `RunsKeepInv` is the central safety theorem, `StoredMeans` spells it out for the actual exporter,
  `CompleteChain` says what failure-free runs achieve, `ChainBinds` what an auditor gets from the chain.
* **Finalizers.** A state is the set of connections, the set of clusters and the worker's place in the
  code, with everything it has read so far. User steps may come between any two API calls.
  `FinalizerSafety` is about all interleavings; `SyncConfigures`, `ConnectionConfigured` and
  `DeletionCompletes` say what a reconcile achieves when none comes in between.
* **Alerts.** `Layered` is the simple definition of a merged rule: a fold of patches, which
  `LayeredFields` spells out field by field. The nested
  merge refines it, and the heap merge refines the nested merge; a ghost owner map records that no two
  rules ever share a label map. `AlertsOf` goes all the way from the listed objects to the files.
* **Concurrency.** Each goroutine's steps are separate; a run is any sequence of enabled steps.

Results where the code falls short of what one would expect, each with the exact condition:

* The configured export delay is honoured at all clock readings if and only if it is at most an hour
  (`DelayHonoured`); the documentation promises it without that limit, but the code steps back one
  hour at most.
* A hole in the chain that is filled later stays unlinked (`HoleStaysOpen`; `FilledHole` is such a
  sequence of runs, in either mode): over all runs, a manifest carries its predecessor's hash if and
  only if the predecessor was written before it and could be read at that moment (`LinksExplained`).
* For a configuration that lists any window, all sequences of its runs write every key at most once if
  and only if compliance mode is on (`WriteOnceExactly`); otherwise a run that dies after an upload and
  its retry write one key twice (`RetryOverwritesData`).
* The finalizer protocol is safe in every run if and only if references of one kind and name never
  name two namespaces (`FinalizerSafety`), because the list call is not restricted to a namespace.
* An argument list splits back into its fields if and only if no field holds a comma
  (`ArgsRoundTrip`).
* Un-flattening loses nothing, and does not depend on map order, if and only if no key's path is a
  proper prefix of another's (`UnflattenLossless`, `UnflattenOrderFree`). An extra field reaches the
  output if and only if its first segment is not a declared field and no key that is walked later has a
  path above or below its own (`ExtraSurvives`).
* Alert files do not depend on map order if and only if groups that share a file name have contents
  that commute (`AlertFilesOrderFree`); which groups share one is `FileNamesCollide`.
* Object keys of two streams, or of two tenants in cold storage, can meet if and only if one name
  followed by the separator starts the other (`AuditStreamsMeet`, `ColdTenantsMeet`).

## Model

| member | source | states |
|---|---|---|
| Text.SortKeys | kof-operator/internal/audit/manifest.go:296-303 | whatever order the keys come in, the result lists each of them once, and of any two the one that ends, or has the smaller character, where they first differ comes first |
| Text.LessMeans | kof-operator/internal/audit/canonical.go:48 | the order of the sort is the one in which the smaller character at the first difference, or the end of the string, decides |
| Text.ListingUnique | kof-operator/internal/audit/canonical.go:44-48 | a set of keys has only one strictly increasing listing, so sorting removes map iteration order |
| Text.SplitJoin | kof-operator/internal/controller/vmstorageconnection_controller.go:358-365 | splitting a join gives the parts back when no part holds the separator |
| Text.JoinSnoc | kof-operator/internal/controller/vmstorageconnection_controller.go:358-365 | joining one more part appends one separator and the part |
| Text.JoinSplit | kof-operator/internal/audit/vlogs.go:214-234 | joining a split gives the text back, so dotted paths determine their keys |
| JsonText.LexBack | kof-operator/internal/audit/canonical.go:41-90 | spelled tokens are read back as the same tokens |
| JsonText.ParseEscaped | kof-operator/internal/audit/canonical.go:56-60 | reading an escaped string, HTML escapes included, gives the original string |
| JsonText.EscapeLength | kof-operator/internal/audit/canonical.go:56-60 | quote, backslash and five control characters are written in two characters, the other control, HTML and line-separator characters in six, all others as they are |
| JsonText.EscapeSafe | kof-operator/internal/audit/canonical.go:56-60 | no printed string holds a control, HTML or line-separator character, and a string is printed as it is if and only if it holds nothing that is escaped |
| JsonText.SpelledOneLine | kof-operator/internal/audit/manifest.go:250-259 | printed JSON holds no raw newline, so one event is one line |
| CanonicalJson.CanonicalRoundTrip | kof-operator/internal/audit/canonical.go:27-90 | parsing the printed form of any tree gives the tree back; at every level of the text keys strictly ascend, character by character; printing the parsed text gives the same bytes |
| CanonicalJson.CanonicalInjective | kof-operator/internal/audit/canonical.go:27-90 | different trees have different bytes |
| CanonicalJson.CanonUnique | kof-operator/internal/audit/canonical.go:41-90 | every document with increasing keys is the canonical form of its own tree |
| CanonicalJson.EraseCanon | kof-operator/internal/audit/canonical.go:43-69 | the canonical document stands for the tree it was made from |
| CanonicalJson.CanonIncreases | kof-operator/internal/audit/canonical.go:43-52 | keys of the canonical document strictly increase at every level |
| CanonicalJson.LeafText | kof-operator/internal/audit/canonical.go:87-89 | null, true, false, numbers and strings are written as the words, decimal numbers and quoted strings of JSON |
| CanonicalJson.ArrayText | kof-operator/internal/audit/canonical.go:71-85 | an array is its items in order, separated by commas, in brackets |
| CanonicalJson.ObjectText | kof-operator/internal/audit/canonical.go:43-69 | an object is key, colon and value of its members in ascending order of keys, separated by commas, in braces |
| CanonicalJson.MarshalSorted | kof-operator/internal/audit/canonical.go:41-90 | the recursive printer writes exactly the canonical text, which parses to the tree and has its keys in ascending order |
| CanonicalJson.MarshalObject | kof-operator/internal/audit/canonical.go:43-69 | the object branch writes the canonical text of the object whatever order the map yields its keys in |
| CanonicalJson.WriteMembers | kof-operator/internal/audit/canonical.go:50-68 | the loop over sorted keys writes the members, separated by commas |
| CanonicalJson.MarshalArray | kof-operator/internal/audit/canonical.go:71-85 | the array branch writes the items in their order |
| Unflatten.LookupSet | kof-operator/internal/audit/vlogs.go:238-249 | after setting a path it holds the new value, paths that clash with it are gone, all others are unchanged |
| Unflatten.LeavesDetermine | kof-operator/internal/audit/vlogs.go:214-249 | trees without empty objects are equal when their leaves are |
| Unflatten.SetAllHolds | kof-operator/internal/audit/vlogs.go:214-249 | over prefix-free keys, in any order, the tree's leaves are exactly the entries |
| Unflatten.UnflattenLossless | kof-operator/internal/audit/vlogs.go:214-249 | flattening the tree returns exactly the entries if and only if no key's path is a proper prefix of another's |
| Unflatten.LastWriteWins | kof-operator/internal/audit/vlogs.go:214-249 | for any keys and any walk, a value is kept if and only if no key walked later has a path that is a proper prefix of its own or extends it |
| Unflatten.LeafFromKey | kof-operator/internal/audit/vlogs.go:214-249 | every leaf of the tree is the value of a key with that path |
| Unflatten.UnflattenOrderFree | kof-operator/internal/audit/vlogs.go:214-249 | all orders of walking the keys give the same tree if and only if no key's path is a proper prefix of another's |
| Unflatten.UnflattenExtra | kof-operator/internal/audit/vlogs.go:214-234 | the loop visits exactly the unknown keys and, when they are prefix-free, keeps every one of them |
| AuditEvents.MergeExtra | kof-operator/internal/audit/types.go:135-154 | the merge holds every extra field and every declared one, and declared ones win, in any order of the loop |
| AuditEvents.DeclaredLeavesKnown | kof-operator/internal/audit/vlogs.go:114-154 | every leaf of the declared fields is a known flat key |
| AuditEvents.ExtraSurvives | kof-operator/internal/audit/types.go:135-154 | in any walk, an unknown key's value is in the printed event if and only if its first segment is not a declared field and no later key clashes with its path |
| AuditEvents.PrefixFreeSurvives | kof-operator/internal/audit/types.go:135-154 | when no unknown key's path is a proper prefix of another's, the value is printed if and only if the first segment is not a declared field |
| AuditEvents.DeclaredSurvives | kof-operator/internal/audit/vlogs.go:160-209 | every grouped declared field is in the printed event under its path, whatever the extra fields are |
| AuditEvents.SchemaSurvives | kof-operator/internal/audit/vlogs.go:160-209 | each of the sixteen dotted fields of the schema is printed under its own path with the record's value |
| AuditEvents.ScalarsSurvive | kof-operator/internal/audit/vlogs.go:160-209 | the six plain scalar fields are printed with the record's own value, the tenant likewise or as PLATFORM when it is empty, the time as it was read |
| AuditEvents.KnownExactly | kof-operator/internal/audit/vlogs.go:114-154 | the known keys are VictoriaLogs' own three and exactly the dotted paths of the declared fields |
| AuditEvents.NothingInvented | kof-operator/internal/audit/vlogs.go:214-234 | nothing else is printed: every leaf is a declared field or an unknown key of the record with its value |
| AuditEvents.TrimMeans | kof-operator/internal/audit/manifest.go:230 | trimming takes all white space off both ends of a line and nothing else |
| AuditEvents.RecordOf | kof-operator/internal/audit/manifest.go:234-237 | a line is a record if and only if it is null or an object of strings and nulls, and the record has the object's strings |
| AuditEvents.RecordRoundTrip | kof-operator/internal/audit/manifest.go:234-237 | every record can be written as a line that reads back as it |
| AuditEvents.TimeRead | kof-operator/internal/audit/vlogs.go:160-173 | the time comes from "time", or else from "_time", or else is the zero time |
| AuditEvents.EventScalars | kof-operator/internal/audit/vlogs.go:160-209 | what every event of a record holds in its scalar fields |
| AuditEvents.FlatToEvent | kof-operator/internal/audit/vlogs.go:160-209 | conversion succeeds if and only if the time is absent or can be read, and gives the declared fields plus the unflattened extra ones |
| AuditEvents.ConvertsCount | kof-operator/internal/audit/manifest.go:228-261 | there is one event for each line that is not blank |
| AuditEvents.NewlinesAreEvents | kof-operator/internal/audit/manifest.go:250-260 | the uncompressed output has exactly as many newline characters as events |
| AuditEvents.LinesReadBack | kof-operator/internal/audit/manifest.go:250-260 | splitting the output at newlines and parsing gives the events back, in order |
| AuditEvents.PoliciesListed | kof-operator/internal/audit/manifest.go:243-248 | the policy lists are, in ascending order and each once, the non-empty values under "audit_policy_version" and "cluster_audit_policy_version" in the records of the lines |
| AuditEvents.PoliciesSnoc | kof-operator/internal/audit/manifest.go:243-248 | a policy set grows by the event's version when it is not empty, and by nothing otherwise |
| AuditEvents.CountingWriter.Write | kof-operator/internal/audit/manifest.go:279-288 | the count is the number of bytes sent on, also after a short write; on success the hash has seen exactly the bytes sent |
| AuditEvents.SendPieces | kof-operator/internal/audit/manifest.go:254-259 | bytes sent in any number of writes of any size are all counted, sent and hashed, or a write was refused |
| AuditEvents.Feed | kof-operator/internal/audit/manifest.go:254-259 | in however many writes the compressor passes on what it has ready, the bytes sent and hashed are what it owes for the text so far |
| AuditEvents.WriteLine | kof-operator/internal/audit/manifest.go:254-259 | one event and one newline are fed, or the write failed |
| AuditEvents.CloseGzip | kof-operator/internal/audit/manifest.go:265-267 | after closing, the bytes sent and hashed are the whole compressed text |
| AuditEvents.GatherLines | kof-operator/internal/audit/manifest.go:228-261 | the loop's count, policy sets and output are those of the converted lines; it fails only on an unreadable line or a refused write |
| AuditEvents.ScanLine | kof-operator/internal/audit/manifest.go:228-261 | a blank line changes nothing; any other line adds one event, counts it, and adds its two policy versions |
| AuditEvents.GatheredAll | kof-operator/internal/audit/manifest.go:265-275 | at the end the event count equals both the non-blank lines and the newlines, and the statistics describe the bytes |
| AuditEvents.CompressEvents | kof-operator/internal/audit/manifest.go:212-276 | on success count, size and digest describe exactly the bytes sent downstream, and the two policy lists are the sorted distinct non-empty versions in the records of the lines; it succeeds when the scan does, every line is readable and the pipe takes all bytes |
| AuditEvents.StreamDataToS3 | kof-operator/internal/audit/manifest.go:165-206 | succeeds if and only if the scan and the upload do and every line is readable; then in every interleaving of the two goroutines the uploaded object is exactly what the statistics describe |
| Manifests.ReadBack | kof-operator/internal/audit/types.go:160-184 | manifest bytes are valid JSON and give back every field that was written, constants included |
| Manifests.StringsAre | kof-operator/internal/audit/manifest.go:106-108 | a policy list is written as the array of exactly its strings, in order |
| ExportSite.SiteSound | kof-operator/internal/audit/manifest.go:106-131 | the exporter's printer and reader of manifests and its streaming are what the protocol relies on |
| ExportSite.WitnessTallies | kof-operator/internal/audit/manifest.go:156-163 | statistics that streaming produced for a data object give its digest, its size, the number of events and the sorted distinct policy versions of some response's lines, compressed in it |
| KeyLayout.DatesAdvance | kof-operator/internal/audit/types.go:196-205 | later days have later calendar dates, leap years included |
| KeyLayout.DateNumber | kof-operator/internal/audit/types.go:196-205 | the date of a day is the one that the closed formula of the Gregorian calendar numbers so |
| KeyLayout.FourValue | kof-operator/internal/audit/types.go:196-205 | years are written as their decimal digits |
| KeyLayout.TwoValue | kof-operator/internal/audit/types.go:196-205 | months, days and hours are written as their two decimal digits |
| KeyLayout.AuditJoined | kof-operator/internal/audit/types.go:196-205 | an audit key is prefix (if any), stream, tenant, year, month, day and hour joined by slashes |
| KeyLayout.AuditKeyReads | kof-operator/internal/audit/types.go:196-205 | splitting an audit key at its slashes gives these parts back, when names have none |
| KeyLayout.ColdJoined | kof-operator/internal/coldstorage/types.go:47-59 | a cold-storage key is prefix (if any), tenant, cluster, date, hour and source joined by slashes |
| KeyLayout.ColdKeyReads | kof-operator/internal/coldstorage/types.go:47-59 | splitting a cold-storage key at its slashes gives these parts back, when names have none |
| KeyLayout.AuditKeysSeparate | kof-operator/internal/audit/types.go:196-205 | equal audit prefixes mean equal stream, tenant and hour when streams have no slash, even if tenants do |
| KeyLayout.AuditStreamsMeet | kof-operator/internal/audit/types.go:196-205 | two different streams can share a prefix if and only if one plus a slash starts the other |
| KeyLayout.ColdKeysSeparate | kof-operator/internal/coldstorage/types.go:47-59 | equal cold-storage prefixes mean equal source, tenant, cluster and hour when tenants have no slash, even if clusters do |
| KeyLayout.ColdTenantsMeet | kof-operator/internal/coldstorage/types.go:47-59 | two tenants can share a cold-storage prefix of one source and hour, for some clusters, if and only if one plus the cluster separator starts the other |
| KeyLayout.NamedObjectsSeparate | kof-operator/internal/audit/manifest.go:51-72 | objects under equal keys have equal prefixes and names |
| ExportProtocol.ObjectNamesSeparate | kof-operator/internal/audit/manifest.go:51-72 | the keys of different windows or different parts of a window are different |
| ExportProtocol.AttemptGuarded | kof-operator/internal/audit/manifest.go:54-90 | an attempt that writes found no manifest, and in compliance mode no data; a link it writes is empty or the hash of the stored predecessor |
| ExportProtocol.AttemptReturns | kof-operator/internal/audit/manifest.go:44-154 | exactly when an attempt exports, skips, reports an outage or dies; all else fails |
| ExportProtocol.AttemptWrites | kof-operator/internal/audit/manifest.go:44-154 | exactly when an attempt writes the data, the signature and the manifest |
| ExportProtocol.AttemptLeaves | kof-operator/internal/audit/manifest.go:54-154 | what stands in the objects an attempt wrote; an attempt that is refused leaves the store as it was |
| ExportProtocol.ManifestSays | kof-operator/internal/audit/manifest.go:106-126 | every field of a new manifest, read back from its bytes: statistics, link, window, time, key, producer and constants |
| ExportProtocol.AttemptComplete | kof-operator/internal/audit/manifest.go:92-150 | an attempt that writes a manifest has streamed its data, and the manifest is built from the statistics of that pass |
| ExportProtocol.NewManifest | kof-operator/internal/audit/manifest.go:98-150 | a manifest just written is signed as it stands, states the statistics of a streaming pass that produced the stored data, and links soundly |
| ExportProtocol.ApplyKeeps | kof-operator/internal/audit/manifest.go:54-62 | an attempt changes and removes no stored manifest, and adds at most its own |
| ExportProtocol.ApplyCommitted | kof-operator/internal/audit/manifest.go:44-154 | commit-last safety survives every effect an attempt can have |
| ExportProtocol.ApplyChainSound | kof-operator/internal/audit/manifest.go:98-131 | chain soundness survives every effect an attempt can have |
| ExportProtocol.ApplyLogSound | kof-operator/internal/audit/manifest.go:74-95 | no manifest is written twice, and in compliance mode no object is |
| ExportProtocol.AttemptKeepsInv | kof-operator/internal/audit/manifest.go:44-154 | one attempt keeps commit-last safety, chain soundness, write-once and all stored manifests, whatever fails and wherever it dies |
| AuditRuns.LatestEligible | kof-operator/internal/audit/exporter.go:86-95 | the chosen end is the latest hour end at least the delay ago, where a delay over an hour counts as an hour and a negative one as none |
| AuditRuns.DelayHonoured | kof-operator/internal/audit/exporter.go:86-95 | the delay is honoured at every clock reading if and only if it is at most an hour |
| AuditRuns.LastHourSteps | kof-operator/internal/audit/exporter.go:86-98 | clocks at most n hours apart choose ends at most n hours apart, in order |
| AuditRuns.CollectWindows | kof-operator/internal/audit/exporter.go:143-174 | the nested loops list the windows of all streams, tenants and hours that have no manifest |
| AuditRuns.StreamWindowsMember | kof-operator/internal/audit/exporter.go:143-197 | a window is listed if and only if its stream is configured, its tenant belongs to the stream, its hour is in the span and it has no manifest |
| AuditRuns.RunTakesOn | kof-operator/internal/audit/exporter.go:86-197 | a run's windows, spelled out: configured streams, the platform's one tenant or the configured or else discovered ones, the last hours of the catch-up span, no manifest yet |
| AuditRuns.HoursIncrease | kof-operator/internal/audit/exporter.go:153-170 | the hours of one stream and tenant are listed in order, each once |
| AuditRuns.StreamsChronological | kof-operator/internal/audit/exporter.go:143-174 | each listed window comes after the one an hour earlier, unless that is stored already or before the span |
| AuditRuns.RunsKeep | kof-operator/internal/audit/exporter.go:111-131 | what every single attempt keeps, every sequence of runs keeps |
| AuditRuns.RefusedRun | kof-operator/internal/audit/exporter.go:73-108 | in compliance mode on a bucket that is not locked, or when windows cannot be collected, a run writes nothing and reports an error |
| AuditRuns.StartedRun | kof-operator/internal/audit/exporter.go:104-137 | any other run exports its windows, and reports success if and only if nothing went wrong |
| AuditRuns.WindowHandled | kof-operator/internal/audit/exporter.go:113-131 | an outage or a crash ends the run at that window; a failure is remembered and the loop goes on |
| AuditRuns.WindowCancelled | kof-operator/internal/audit/exporter.go:114-116 | a cancelled context ends the run before the next window |
| AuditRuns.RunsKeepInv | kof-operator/internal/audit/manifest.go:44-154 | over every sequence of runs with failures, ambiguous puts and crashes: a stored manifest has its signature and the data its statistics come from; every link is the hash of the manifest an hour earlier; no manifest ever changes |
| AuditRuns.WriteOnce | kof-operator/internal/audit/manifest.go:54-95 | with compliance mode on in every run, each key is written at most once over all runs |
| AuditRuns.SuccessMeansStored | kof-operator/internal/audit/exporter.go:111-137 | a run that reports no error leaves every hour of its span, for every stream and tenant, with a manifest |
| AuditRuns.CleanRunExtends | kof-operator/internal/audit/exporter.go:86-137 | a failure-free run that reaches back to the end of a linked interval extends it, linked, to its own last hour |
| AuditRuns.CompleteChain | kof-operator/internal/audit/exporter.go:86-174 | from an empty store, failure-free timely runs leave, for each stream and tenant, one gap-free interval up to the latest eligible hour in which every manifest but the oldest carries its predecessor's hash |
| AuditRuns.WindowsHaveEnded | kof-operator/internal/audit/exporter.go:86-105 | every window a run takes on ended at least the delay before the run's clock |
| AuditLimits.LinkedExactlyWhen | kof-operator/internal/audit/manifest.go:98-131 | a new manifest links back if and only if its predecessor was stored and readable at that moment |
| AuditLimits.LinksExplained | kof-operator/internal/audit/exporter.go:111-131 | over every sequence of runs from the empty store, a stored manifest links back if and only if its predecessor was written before it and read without error when it was written |
| AuditLimits.HoleStaysOpen | kof-operator/internal/audit/manifest.go:54-62 | a manifest written without its predecessor never links back, whatever runs follow |
| AuditLimits.FilledHole | kof-operator/internal/audit/exporter.go:111-131 | two runs, in either mode, after which two adjacent hours are stored and unlinked for ever: one query fails once |
| AuditLimits.ExporterLeavesHole | kof-operator/internal/audit/exporter.go:111-131 | the actual exporter has such runs |
| AuditLimits.RetryOverwritesData | kof-operator/internal/audit/manifest.go:78-95 | outside compliance mode, for every configuration that lists a window, a run that dies after the upload and its retry write one key twice |
| AuditLimits.WriteOnceExactly | kof-operator/internal/audit/manifest.go:74-95 | all sequences of runs of a configuration write each key at most once if and only if compliance mode is on, or the configuration lists no window at all |
| AuditLimits.ExporterWritesOnce | kof-operator/internal/audit/manifest.go:74-95 | the same of the actual exporter |
| AuditRuns.ChainBinds | kof-operator/internal/audit/manifest.go:307-328 | two linked chains with equal newest manifests agree on all older manifests and on their data, or the hash collides |
| AuditExporter.Exporter.PutObject | kof-operator/internal/audit/manifest.go:143-150 | a put takes effect and succeeds, takes effect and fails, or does nothing and fails |
| AuditExporter.Exporter.PreviousManifestSHA256 | kof-operator/internal/audit/manifest.go:307-328 | the hash of the manifest an hour earlier, or nothing if it is missing, unreadable or not JSON |
| AuditExporter.Exporter.Check | kof-operator/internal/audit/manifest.go:54-90 | the checks before anything is written refuse exactly as the protocol says |
| AuditExporter.Exporter.StreamWindow | kof-operator/internal/audit/manifest.go:64-96 | the response is streamed, and the result is one that its lines can have |
| AuditExporter.Exporter.CommitWindow | kof-operator/internal/audit/manifest.go:98-150 | the steps after the data upload refine Finish, with the manifest built from the streamed statistics |
| AuditExporter.Exporter.PublishManifest | kof-operator/internal/audit/manifest.go:139-150 | signature first, manifest last, with every outcome of each |
| AuditExporter.Exporter.ExportWindow | kof-operator/internal/audit/manifest.go:44-154 | the whole call, the events running through the compressor into the data object, refines Attempt: same effect on the store, same outcome |
| AuditExporter.Exporter.ExportWindows | kof-operator/internal/audit/exporter.go:111-131 | the loop passes over errors, stops at an outage, a crash or a cancelled context, and reports success only if all went well |
| AuditExporter.Exporter.Run | kof-operator/internal/audit/exporter.go:73-137 | without object lock in compliance mode, or when windows cannot be collected, nothing is written and the run fails; otherwise it exports its windows and succeeds if and only if every one went well; every invariant of the bucket is kept |
| AuditExporter.StoredMeans | kof-operator/internal/audit/manifest.go:44-154 | after any runs of the actual exporter each stored manifest is signed as it stands, and its digest, size, event count and policy lists are those of the data object beside it, which holds the compressed events of a response |
| StorageArgs.SetArg | kof-operator/internal/controller/vmstorageconnection_controller.go:358-365 | the argument is the joined list if some value is not empty, and stays unset otherwise |
| StorageArgs.GatherColumns | kof-operator/internal/controller/vmstorageconnection_controller.go:266-292 | five aligned lists of the active connections in list order; the secrets are the distinct non-empty names |
| StorageArgs.BuildConfig | kof-operator/internal/controller/vmstorageconnection_controller.go:250-302 | the arguments are the five columns of the active connections over the unmanaged ones; the secrets are the distinct non-empty names of the active connections, ascending |
| StorageArgs.BuildAt | kof-operator/internal/controller/vmstorageconnection_controller.go:250-302 | each owned argument is present if and only if some field is not empty, and is then the join of its column, whatever was there before |
| StorageArgs.BuildElsewhere | kof-operator/internal/controller/vmstorageconnection_controller.go:259-266 | arguments that are not owned are unchanged |
| StorageArgs.ArgsRoundTrip | kof-operator/internal/controller/vmstorageconnection_controller.go:250-302 | a present argument splits into one field per connection in list order if and only if no field holds a comma; an absent one means all fields are empty |
| StorageArgs.MountPath | kof-operator/internal/controller/vmstorageconnection_controller.go:348-353 | a secret's key is mounted under /etc/vm/secrets, the secret's name and the key; without a key there is an empty place holder |
| StorageArgs.ArgumentShows | kof-operator/internal/controller/vmstorageconnection_controller.go:281-299 | field i of each owned argument is connection i's address, mount path or flag |
| StorageArgs.OwnedAre | kof-operator/internal/controller/vmstorageconnection_controller.go:51-57 | the owned arguments are the five storageNode ones |
| StorageArgs.ActiveWithout | kof-operator/internal/controller/vmstorageconnection_controller.go:276-279 | connections under deletion may be left out |
| StorageArgs.AllActive | kof-operator/internal/controller/vmstorageconnection_controller.go:276-291 | all others count, in list order |
| StorageArgs.SecretsOfList | kof-operator/internal/controller/vmstorageconnection_controller.go:281-284 | the secrets are the non-empty names of the active connections |
| StorageArgs.BuildFixedPoint | kof-operator/internal/controller/vmstorageconnection_controller.go:250-320 | rebuilding from the result gives the result |
| FinalizerProtocol.FetchKeeps | kof-operator/internal/controller/vmstorageconnection_controller.go:154-210 | reading the cluster and branching on deletion and finalizer keeps the invariant |
| FinalizerProtocol.AddFinalizerKeeps | kof-operator/internal/controller/vmstorageconnection_controller.go:212-222 | adding finalizer and labels, refused when stale, keeps the invariant |
| FinalizerProtocol.ListKeeps | kof-operator/internal/controller/vmstorageconnection_controller.go:250-257 | with one namespace per name, the listed connections all belong to this cluster and hold the finalizer |
| FinalizerProtocol.UpdateClusterKeeps | kof-operator/internal/controller/vmstorageconnection_controller.go:306-320 | writing the rebuilt configuration, or finding it there and crediting it to the connections just listed, keeps the invariant |
| FinalizerProtocol.DropFinalizerKeeps | kof-operator/internal/controller/vmstorageconnection_controller.go:233-246 | the finalizer goes only when the connection is configured nowhere |
| FinalizerProtocol.StepKeeps | kof-operator/internal/controller/vmstorageconnection_controller.go:154-320 | every step of users and worker keeps the invariant |
| FinalizerProtocol.RunKeeps | kof-operator/internal/controller/vmstorageconnection_controller.go:154-320 | so does every run, with user steps interleaved anywhere |
| FinalizerProtocol.TwoNamespacesUnsafe | kof-operator/internal/controller/vmstorageconnection_controller.go:250-257 | with references of one name in two namespaces there is a run after which a deleted connection is still configured |
| FinalizerProtocol.FinalizerSafety | kof-operator/internal/controller/vmstorageconnection_controller.go:190-320 | in all runs every configured node belongs to an existing connection with the finalizer, if and only if references of one kind and name share a namespace |
| FinalizerSync.ListTakesDown | kof-operator/internal/controller/vmstorageconnection_controller.go:250-291 | listing takes down one entry for each connection listed, with that connection's node |
| FinalizerSync.SyncConfigures | kof-operator/internal/controller/vmstorageconnection_controller.go:250-320 | when nothing comes between reading the cluster and writing it, it is left with exactly one entry for each of its active connections, in list order, with that connection's node and the user's own arguments; nothing else changes |
| FinalizerSync.SpecShows | kof-operator/internal/controller/vmstorageconnection_controller.go:250-320 | the arguments of such a cluster show, field by field, the connections' addresses, mount paths and flags |
| FinalizerSync.ConnectionConfigured | kof-operator/internal/controller/vmstorageconnection_controller.go:190-231 | one undisturbed reconcile gives an active connection its finalizer and labels and the cluster its node |
| FinalizerSync.DeletionCompletes | kof-operator/internal/controller/vmstorageconnection_controller.go:233-246 | one undisturbed reconcile removes a connection under deletion from its cluster and drops its finalizer |
| FinalizerSync.UserArgumentsKept | kof-operator/internal/controller/vmstorageconnection_controller.go:306-320 | in no run does the worker create or delete a cluster or change an argument of the user's |
| FinalizerSync.UserConnectionsKept | kof-operator/internal/controller/vmstorageconnection_controller.go:212-246 | in no run does the worker change what users set on a connection, or remove one that is not under deletion |
| AlertRules.GetConfigMaps | kof-operator/internal/controller/alerts_configmap_controller.go:182-215 | default ConfigMaps come first and every cluster's own ConfigMaps keep their order |
| AlertRules.PromTable | kof-operator/internal/controller/alerts_configmap_controller.go:241-274 | PrometheusRules fill the default layer only, each alert under its own name |
| AlertRules.PartialStep | kof-operator/internal/controller/alerts_configmap_controller.go:285-335 | within one ConfigMap the order of rules does not matter |
| AlertRules.MergeMapAt | kof-operator/internal/controller/alerts_configmap_controller.go:306-333 | one ConfigMap changes exactly the rules it names for its cluster |
| AlertRules.DecodedMeans | kof-operator/internal/controller/alerts_configmap_controller.go:367-389 | a decoded ConfigMap has the same cluster, groups and rules |
| AlertRules.LayeredMerge | kof-operator/internal/controller/alerts_configmap_controller.go:280-338 | each final rule is its base patched by its cluster's ConfigMaps in list order; the base of a cluster layer is the finished default rule |
| AlertFields.PatchFields | kof-operator/internal/controller/alerts_configmap_controller.go:392-414 | one patch, field by field: what the new rule gives replaces, all else stays, labels and annotations key by key |
| AlertFields.FoldComposes | kof-operator/internal/controller/alerts_configmap_controller.go:392-414 | in a fold every field, label and annotation is that of the last version that gives it, or else the base's; a map stays nil while nobody has one |
| AlertFields.LayeredFields | kof-operator/internal/controller/alerts_configmap_controller.go:280-338 | so in every merged rule, over the layer's versions and its base |
| AlertFields.DefaultFields | kof-operator/internal/controller/alerts_configmap_controller.go:280-338 | the default rules of the merged table: the default ConfigMaps over the PrometheusRule |
| AlertFields.ClusterFields | kof-operator/internal/controller/alerts_configmap_controller.go:280-338 | a cluster's rules of the merged table: the cluster's ConfigMaps over the finished default rule |
| AlertFields.VersionsAre | kof-operator/internal/controller/alerts_configmap_controller.go:285-307 | the versions of a rule are those of its cluster's ConfigMaps that have it, under its own name, in list order |
| AlertFields.PromAt | kof-operator/internal/controller/alerts_configmap_controller.go:241-274 | a default rule starts as the last alert of its group and name, without keep_firing_for |
| AlertRules.LayeredOrderFree | kof-operator/internal/controller/alerts_configmap_controller.go:203-214 | how the ConfigMaps of different clusters interleave does not matter |
| AlertRules.MergedRule | kof-operator/internal/controller/alerts_configmap_controller.go:182-338 | from listing to table: every rule is the layered fold over the ConfigMaps as listed |
| AlertRules.MergeKeepsAlert | kof-operator/internal/controller/alerts_configmap_controller.go:306-332 | every merged rule's map key is its Alert field |
| AlertFiles.FileNamesCollide | kof-operator/internal/controller/alerts_configmap_controller.go:424-429 | two groups share a file name if and only if a default group is named like a cluster's file, or two clusters' and groups' names run together across the separator |
| AlertFiles.ClustersCollide | kof-operator/internal/controller/alerts_configmap_controller.go:424-429 | groups of two clusters can share a file if and only if one cluster's name plus the separator starts the other's |
| AlertFiles.FileNamesDistinct | kof-operator/internal/controller/alerts_configmap_controller.go:424-429 | clusters without underscore and groups not starting with two of them get distinct file names |
| AlertRules.SortRules | kof-operator/internal/controller/alerts_configmap_controller.go:431-434 | the rules of a group in increasing order of alert name, each once |
| AlertFiles.SortFile | kof-operator/internal/controller/alerts_configmap_controller.go:431-463 | sorting the stamped rules of a group gives its file |
| AlertFiles.StampMeans | kof-operator/internal/controller/alerts_configmap_controller.go:436-444 | a stamped rule has its group under "alertgroup" if it has labels at all, and is otherwise as it was |
| AlertFiles.FileRulesAre | kof-operator/internal/controller/alerts_configmap_controller.go:431-463 | a file holds every rule of its group once, stamped, in ascending order of alert name |
| AlertFiles.GroupsAre | kof-operator/internal/controller/alerts_configmap_controller.go:241-298 | the groups of the files are those of alerts in PrometheusRules, for all clusters, and those a cluster's ConfigMaps have a key for |
| AlertFiles.StampedBefore | kof-operator/internal/controller/alerts_configmap_controller.go:436-444 | stamping group after group is stamping all of them |
| AlertFiles.FileUnchanged | kof-operator/internal/controller/alerts_configmap_controller.go:436-444 | stamping other groups in place does not change a group's file |
| AppendMap.OrderFreeExactly | kof-operator/internal/controller/alerts_configmap_controller.go:422-463 | files made by appending blocks are the same for every order if and only if blocks that share a file commute |
| AlertFiles.AlertFilesOrderFree | kof-operator/internal/controller/alerts_configmap_controller.go:417-467 | the alert files are the same for every order of groups if and only if groups that collide have contents that commute |
| AlertFiles.PlainFiles | kof-operator/internal/controller/alerts_configmap_controller.go:417-467 | with plain names there is exactly one file for each group, with exactly its stamped rules by alert name |
| AlertHeap.DeepCopy | kof-operator/internal/controller/alerts_configmap_controller.go:318-326 | the copy has the same value and shares no map |
| AlertHeap.CopyInto | kof-operator/internal/controller/alerts_configmap_controller.go:402-413 | entries are laid over the old map in place; a nil map is made only when there is something to copy from |
| AlertHeap.PatchRule | kof-operator/internal/controller/alerts_configmap_controller.go:392-414 | in place, the old rule becomes the value-level patch; nothing but its own maps changes |
| AlertHeap.RuleBook.MergeRule | kof-operator/internal/controller/alerts_configmap_controller.go:306-333 | one rule is merged as on values; no other rule changes on the heap, the default rule below it included |
| AlertHeap.RuleBook.MergeRules | kof-operator/internal/controller/alerts_configmap_controller.go:305-333 | the rules of a ConfigMap are merged as on values, in any order |
| AlertHeap.RuleBook.MergeConfigMap | kof-operator/internal/controller/alerts_configmap_controller.go:285-335 | a ConfigMap is merged as on values and makes all its groups, those without rules too; rules of other clusters stay the same objects with the same contents; fails if and only if a group does not decode |
| AlertHeap.RuleBook.MergeAlertConfigMaps | kof-operator/internal/controller/alerts_configmap_controller.go:280-338 | the heap shows exactly the value-level merge of the list; fails if and only if some ConfigMap does not decode |
| AlertHeap.RuleBook.MergePrometheusRules | kof-operator/internal/controller/alerts_configmap_controller.go:218-277 | the heap shows the table of PrometheusRules |
| AlertHeap.RuleBook.StampRule | kof-operator/internal/controller/alerts_configmap_controller.go:436-444 | the group label is set in this rule's map only, and not at all for a rule whose labels are nil |
| AlertHeap.RuleBook.AlertFile | kof-operator/internal/controller/alerts_configmap_controller.go:431-463 | the file lists the group's stamped rules by alert name, and the heap then shows the table with this group stamped |
| AlertHeap.RuleBook.GetAlertFiles | kof-operator/internal/controller/alerts_configmap_controller.go:417-467 | over all groups in any order, with label maps stamped in place on the way, the files are those of the table as it was before |
| AlertHeap.AlertsOf | kof-operator/internal/controller/alerts_configmap_controller.go:94-160 | from the listed PrometheusRules and ConfigMaps to the files: they are those of the layered rules of all groups; fails if and only if a ConfigMap does not decode |
| AlertHeap.AlertsDeterministic | kof-operator/internal/controller/alerts_configmap_controller.go:94-160 | with plain names, all runs over the same objects write the same files, whatever maps they walk in whatever order |
| PipePipeline.StepKeeps | kof-operator/internal/coldstorage/exporter.go:310-356 | bytes received plus bytes on offer are always a prefix of the stream |
| PipePipeline.MarkerMeansComplete | kof-operator/internal/coldstorage/exporter.go:310-356 | in every interleaving the marker is attempted only when both goroutines ended without error, and then the object is the complete stream |
| PipePipeline.RunsAreBounded | kof-operator/internal/coldstorage/exporter.go:310-346 | no interleaving is longer than a bound computed from the stream |
| PipePipeline.NeverStuck | kof-operator/internal/coldstorage/exporter.go:310-346 | until the caller returns some step is possible that is not a failure |
| PipePipeline.MaximalRunsFinish | kof-operator/internal/coldstorage/exporter.go:310-346 | an interleaving that cannot go on has both goroutines ended and the caller returned |
| PipePipeline.CanSucceed | kof-operator/internal/coldstorage/exporter.go:310-356 | for every stream there is an interleaving that uploads all of it and attempts the marker |
| PipePipeline.CanBreak | kof-operator/internal/coldstorage/exporter.go:310-346 | the upload may fail after any number of pieces; then the writer is refused, and no marker is attempted |
| PipePipeline.CanDryUp | kof-operator/internal/coldstorage/exporter.go:310-346 | the source may fail after any number of pieces; then the upload sees the error, and no marker is attempted |
| MetricsFanIn.AddMetricValues | kof-operator/internal/metrics/metrics.go:10-58 | a well-formed metric appends its value at its own place; no other place changes; a malformed one adds no value |
| MetricsFanIn.AddStatusValues | kof-operator/internal/metrics/metrics.go:60-116 | a status changes no values |
| MetricsFanIn.MetricMakes | kof-operator/internal/metrics/metrics.go:10-58 | a metric makes the nodes of its address down to the first empty part, and no others |
| MetricsFanIn.StatusMakes | kof-operator/internal/metrics/metrics.go:60-116 | so does a status |
| MetricsFanIn.StatusNoted | kof-operator/internal/metrics/metrics.go:60-116 | a status is noted at its own address, and at no other |
| MetricsFanIn.ConsumeNotes | kof-operator/internal/server/handlers/metrics_handler.go:69-81 | a failed metric is dropped with the status that comes with it; any other status is noted |
| MetricsFanIn.ConsumeValues | kof-operator/internal/server/handlers/metrics_handler.go:69-81 | one turn of the consumer files the message's value if it is well formed, and drops failed ones |
| MetricsFanIn.FiledValues | kof-operator/internal/metrics/metrics.go:10-58 | the tree holds at every place exactly the well-formed values received for it, in order |
| MetricsFanIn.RunKeeps | kof-operator/internal/server/handlers/metrics_handler.go:52-178 | in every interleaving the counter is the number of live collectors and no message is lost or duplicated |
| MetricsFanIn.NoSendAfterClose | kof-operator/internal/server/handlers/metrics_handler.go:60-63 | once the channel is closed no goroutine is left to send |
| MetricsFanIn.FanInComplete | kof-operator/internal/server/handlers/metrics_handler.go:52-178 | when the call returns, every place holds exactly the multiset of well-formed values that were to be sent for it |
| MetricsFanIn.FanInDeterministic | kof-operator/internal/server/handlers/metrics_handler.go:52-178 | any two interleavings end with the same multiset of values at every place |
| MetricsFanIn.RunsAreBounded | kof-operator/internal/server/handlers/metrics_handler.go:52-178 | no interleaving is longer than the work there is |
| MetricsFanIn.NeverStuck | kof-operator/internal/server/handlers/metrics_handler.go:52-178 | until the call returns some step is possible |
| MetricsFanIn.AnyMayMove | kof-operator/internal/server/handlers/metrics_handler.go:89-178 | no collector is held back by another: each may make its next move at any time, except that a send waits for the consumer |
| MetricsFanIn.AddSeries | kof-operator/internal/metrics/metrics.go:52-58 | appends the value under its name, if it has both |
| MetricsFanIn.AddPod | kof-operator/internal/metrics/metrics.go:38-50 | makes the pod if it is missing and adds the value in it |
| MetricsFanIn.AddResource | kof-operator/internal/metrics/metrics.go:24-36 | makes the custom resource if it is missing and adds the value in its pod |
| MetricsFanIn.ClusterMap.Add | kof-operator/internal/metrics/metrics.go:10-22 | makes the cluster if it is missing and adds the value below it |
| MetricsFanIn.NotePod | kof-operator/internal/metrics/metrics.go:102-116 | makes the pod if it is missing and notes the message on it |
| MetricsFanIn.NoteResource | kof-operator/internal/metrics/metrics.go:81-100 | makes the custom resource if it is missing and notes the message there or on its pod |
| MetricsFanIn.ClusterMap.AddNote | kof-operator/internal/metrics/metrics.go:60-79 | makes the cluster if it is missing and notes the message there or below |
| MetricsFanIn.ClusterMap.Receive | kof-operator/internal/server/handlers/metrics_handler.go:65-81 | the receive loop files all messages in arrival order |
| RegionalChoice.Discover | kof-operator/internal/controller/clusterdeployment_kof_cluster_child_role.go:224-384 | the first match that was used before, or the first match if nothing was recorded; nothing if and only if there is none |
| RegionalChoice.MatchMeans | kof-operator/internal/controller/clusterdeployment_kof_cluster_role.go:140-159 | a match has the child's cloud, is in its KCM region, and is equal in the field that counts for that cloud |
| RegionalChoice.MatchSuffices | kof-operator/internal/controller/clusterdeployment_kof_cluster_role.go:140-159 | no other field counts |
| RegionalChoice.ChoiceSticks | kof-operator/internal/controller/clusterdeployment_kof_cluster_child_role.go:282-427 | from any record or none, over any sequence of successful reconciles with changing lists, a recorded name never changes, nor a non-empty namespace, and every choice matches cloud, location and region |
| RegionalChoice.NamespaceMayMove | kof-operator/internal/controller/clusterdeployment_kof_cluster_child_role.go:386-396 | while the recorded namespace is empty, a reconcile may choose a cluster of the recorded name in any namespace |
| Baseline.DecodeEncode | kof-operator/internal/filewatcher/baseline.go:62-76 | decoding a hex-encoded path gives the path (section 8 of RFC 4648) |
| Baseline.EncodeAt | kof-operator/internal/filewatcher/baseline.go:72-76 | each byte of a path is two hexadecimal digits, the high one first |
| Baseline.Save | kof-operator/internal/filewatcher/baseline.go:72-93 | the Secret holds exactly the hashes, each under its encoded path |
| Baseline.Load | kof-operator/internal/filewatcher/baseline.go:45-69 | on any Secret, every path that some key encodes is read with the value of such a key, and nothing else |
| Baseline.LoadSaved | kof-operator/internal/filewatcher/baseline.go:45-93 | loading what was saved gives exactly what was saved |
| Baseline.CompareOne | kof-operator/internal/filewatcher/watcher.go:230-250 | one path: missing, new, changed or unchanged |
| Baseline.Compare | kof-operator/internal/filewatcher/watcher.go:230-250 | the loop takes up new paths, keeps recorded hashes and sets both gauges for every path |
| Baseline.InitBaseline | kof-operator/internal/filewatcher/watcher.go:208-256 | a start saves what was loaded plus the paths seen for the first time, and flags the paths against what was loaded |
| Baseline.RestartCarriesOn | kof-operator/internal/filewatcher/watcher.go:225-256 | a restart on the baseline of earlier starts loads exactly that and saves the baseline extended by itself |
| Baseline.BaselineIsFirstSight | kof-operator/internal/filewatcher/watcher.go:208-256 | over any number of starts the recorded hash of a path is the one of its first sight |
| Baseline.BaselineSticks | kof-operator/internal/filewatcher/watcher.go:208-256 | no later start replaces or loses a recorded hash |
| Baseline.ModifiedMeansChanged | kof-operator/internal/filewatcher/watcher.go:230-250 | a present path is flagged as modified if and only if its hash differs from the first one recorded, and never as deleted |
| Baseline.DeletedMeansMissing | kof-operator/internal/filewatcher/watcher.go:230-250 | a path is flagged as deleted if and only if it is missing, and then not as modified |

## Left out

Abstracted:

- SHA-256, HMAC, gzip and time formats are arbitrary functions (`Platform`); gzip is only known to emit growing prefixes of its final output.
- JSON numbers are integers, which the float64 trip keeps exact up to 2^53; surrogate-pair escapes in input and invalid UTF-8 are not modelled; string order is by code point.
- The object store is known by window and part; `ObjectNamesSeparate` shows that the keys spelled out are distinct for slash-free streams and years 0 to 9999. Hours are counted from year 0.
- A failed upload leaves arbitrary bytes or none; retries inside the S3 client are not modelled.
- That a response holds the events of its own window is the query's business; any lines are allowed as a response. The cancellation that errgroup sends to the other goroutine is not modelled.
- Discovered tenants are one arbitrary list per run.
- Nested Go maps (un-flattened events, alert layers, the metrics tree) are values rather than heap maps; only the label and annotation maps of alert rules are heap objects, since only they are shared by copies.
- YAML decoding of alert ConfigMaps either fails or gives a map of rules.
- Finalizers: one worker, current reads, an immutable cluster reference with its namespace filled in, selector labels set by the controller only, new clusters without owned arguments. When the configuration would not change, the entries already there count as those of the connections just listed. The nil-or-empty difference that can cause a superfluous update is not modelled.
- Baseline: hashing the tree of files is an arbitrary map of hashes; a watcher without a store, which only clears the gauges, is not modelled.

Weaker than it could be:

- AuditRuns.CompleteChain: needs tenants fixed by the configuration, because a discovered list may omit a tenant in one run and name it in the next.
- FinalizerProtocol.UpdateClusterKeeps: when the configuration would not change, which connection an entry counts for is settled anew in the model; the code has no such record, only the rendered values, which are the same.
- RegionalChoice.Discover: covers discovery by location only, without name label and not regionless.
- PipePipeline.MarkerMeansComplete: takes it from the upload client that it returns without error only after the end of the stream.

Not modelled, as they would add only easy members or thin wrappers:

- recording rules and the ConfigMaps and VMRules written from them
- the regional side's push of its configuration to children (`UpdateChildConfigMap`)
- the cold-storage window collection, which repeats the audit one with clusters added
- the status messages of the metrics tree, where the last arrival wins
- HTTP, S3 and Kubernetes clients, file-system notifications, ACL and OIDC handlers, telemetry, flags, the web application and the Python scripts
