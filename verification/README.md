# Datadog .NET tracer: decision rules and encoders in Dafny

This project models a set of small, self-contained rules from the Datadog
.NET tracer (`dd-trace-dotnet`) and proves what they promise:

- **Agent API.** The retry loop that delivers traces and stats to the Datadog agent. Also the success classification of the two senders and the partial-flush warning.
- **Stats aggregation.** The stats aggregator and its buffer. Spans are counted into per-key buckets, which are serialised and reset per window.
- **Telemetry.** The settings decision table and the choice of transport.
- **WAF.** The regular-expression condition of the WAF rules engine.
- **SPOE.** The HAProxy Stream Processing Offload Protocol typed-data encoder and ACK-frame fragmentation.
- **PE headers.** The NT-header signature check and optional-header dispatch of the vendored PE reader.
- **ADO.NET.** The database-type naming and scope decision.
- **Managed loader.** Assembly-name cleaning and the runtime subdirectory choice.
- **Coverage collector.** Line-range packing, short-branch widening, tracer-target classification and the skip rules of the assembly processor.
- **`dd-trace run`.** The command's validation, environment merge and argument composition.
- **Generated ASP.NET tags.** The ASP.NET tag list.
- **Propagation and routing.** The OpenTracing header lookup and the route-value conversion.

Each component is one module:

| Module | File | Models |
|---|---|---|
| `AgentApi` | agent_api.dfy | `Api.cs` |
| `Stats` | stats.dfy | `StatsAggregator`/`StatsBuffer` |
| `Telemetry` | telemetry.dfy | the telemetry settings and transports |
| `WafRegex` | waf_regex.dfy | `RegexMatchCondition` |
| `SpoeData`, `SpoeFrames` | spoe_data.dfy, spoe_frames.dfy | `TypedData`, `AckFrame` |
| `PeHeaders` | pe_headers.dfy | `ImageNTHeaders` |
| `AdoNet` | adonet.dfy | `AdoNetIntegration` |
| `Loader` | loader.dfy | `AssemblyLoader` |
| `Coverage` | coverage.dfy | `AssemblyProcessor` |
| `Runner` | runner.dfy | `RunCommand` |
| `AspNetTags` | aspnet_tags.dfy | the generated tags |
| `Headers` | headers.dfy | `TextMapHeadersCollection` |
| `RouteValues` | route_values.dfy | `HttpRequestExtensions` |

Shared modules:

- `Wrappers` holds `Option` and `Result`.
- `Text` holds the string helpers: ASCII case folding, whitespace, `Join` and decimal digits.
- `Versions` holds `System.Version` ordering.
- `Bytes` holds the unsigned machine integers.

Calls into code outside the model become parameters:

- **Agent API:** the agent's responses and `Version.TryParse`.
- **Telemetry:** the absolute-URI parser behind `Uri.TryCreate` and `new Uri(string)`.
- **WAF:** the RE2 search together with the data visitor, and `MakeTransformInputKey`.
- **SPOE:** the variable-length integer codec, `IPAddress.Parse`, base64 and decimal rendering, and the frame encoders' lengths.
- **PE headers:** the file- and optional-header parsers.
- **ASP.NET tags:** the base tag list.
- **Route values:** `ToString` of route values.

Each `Model` row below names a member whose contract states the property.

## Model

| member | source | states |
|---|---|---|
| AgentApi.SendWithRetry | tracer/src/Datadog.Trace/Agent/Api.cs:107-188 | The loop's result, final-try flags and delays are exactly those of the recursive reference `Attempts` from attempt 1 and 100 ms. |
| AgentApi.AttemptsBounds | tracer/src/Datadog.Trace/Agent/Api.cs:110-181 | At most five callback invocations and one delay between consecutive invocations. When all five are made, there are exactly four delays, none after the final try. There are no invocations exactly when building the first request fails. |
| AgentApi.AttemptsShape | tracer/src/Datadog.Trace/Agent/Api.cs:130-181 | Only the fifth attempt gets `isFinalTry`, and the delays are the doubling back-off from the initial sleep. |
| AgentApi.BackoffDoubles | tracer/src/Datadog.Trace/Agent/Api.cs:112-181 | The i-th delay is the initial sleep times 2^i. |
| AgentApi.RequestCreationFailureIsTerminal | tracer/src/Datadog.Trace/Agent/Api.cs:118-126 | A throwing request factory makes the send fail with no callback, no retry and no delay. |
| AgentApi.AlwaysFailingCallback | tracer/src/Datadog.Trace/Agent/Api.cs:110-180 | A callback that always fails is invoked five times, only the last call is final, the delays are 100, 200, 400, 800 and the send fails. |
| AgentApi.FirstSuccessAt | tracer/src/Datadog.Trace/Agent/Api.cs:149-186 | A first success at attempt k+1 returns true after exactly k+1 invocations and k back-off delays. |
| AgentApi.FirstSuccessAfter | tracer/src/Datadog.Trace/Agent/Api.cs:149-186 | The same from any attempt number and sleep, which is the induction behind `FirstSuccessAt`. |
| AgentApi.ReleaseExceptionIsFailedAttempt | tracer/src/Datadog.Trace/Agent/Api.cs:132-146 | In release builds a callback exception behaves exactly like a callback returning false. |
| AgentApi.SuccessNeedsASuccessfulAttempt | tracer/src/Datadog.Trace/Agent/Api.cs:107-188 | A send returns true only if one of its attempts returned true. |
| AgentApi.LogPartialFlushWarningIfRequired | tracer/src/Datadog.Trace/Agent/Api.cs:86-105 | Warns iff the version changed, partial flush is on, and the version is missing, unparsable or below 7.26.0. The stored version becomes the given one. |
| AgentApi.RepeatedVersionNeverWarns | tracer/src/Datadog.Trace/Agent/Api.cs:88-91 | Asking again with the same version never warns. |
| AgentApi.WarningsBoundedByChanges | tracer/src/Datadog.Trace/Agent/Api.cs:86-105 | Over any series of checks, warnings never outnumber version changes. None are logged with partial flush off. |
| AgentApi.SendStats | tracer/src/Datadog.Trace/Agent/Api.cs:190-230 | A stats send succeeds exactly on a 2xx status, a post exception escapes unchanged, and the container header is added iff a container id is known. |
| AgentApi.StatsSendOutcome | tracer/src/Datadog.Trace/Agent/Api.cs:107-230 | Through the retry loop, a 2xx on the first stats post ends the send at once with success. A stats send succeeds only if one of its first five posts got a 2xx, so posts that always throw never succeed, in either build. |
| AgentApi.SendTraces | tracer/src/Datadog.Trace/Agent/Api.cs:232-330 | Success iff 2xx and false for other statuses. The headers are the trace count, then the container id iff known, then the tracer-stats flag iff enabled. With statsd, the metrics are a request plus an error for a thrown post or a response with its status. A thrown post changes no state and pushes nothing. After the first 2xx the agent version is the header's value, or empty when it is missing. Pushed rates are the response body, which must differ from the cache and becomes the new cache. The partial-flush warning is logged exactly on a 2xx while no agent version is known and the version check warns. |
| AgentApi.ErrorStatusIsNotAnApiError | tracer/src/Datadog.Trace/Agent/Api.cs:254-293 | A non-2xx response is a failed attempt that leaves the API-errors counter and the state alone. |
| AgentApi.UnreadableBodyStillSucceeds | tracer/src/Datadog.Trace/Agent/Api.cs:295-329 | After a 2xx, an unreadable or undeserialisable body still yields true and leaves the cache alone. |
| AgentApi.SampleRatesPushedOnlyOnChange | tracer/src/Datadog.Trace/Agent/Api.cs:299-320 | Rates are pushed iff the content length is non-zero, a callback exists, the body is readable, differs from the cache and deserialises. |
| AgentApi.PartialFlushCheckedOnce | tracer/src/Datadog.Trace/Agent/Api.cs:295-300 | Once a successful send has recorded the agent version, later sends never warn and keep it. |
| Stats.SameKeySharesBucket | tracer/test/Datadog.Trace.Tests/Agent/StatsBufferTests.cs:18-25 | Keys compare by value: two eligible spans land in one bucket exactly when their five key fields agree. |
| Stats.Record | tracer/test/Datadog.Trace.Tests/Agent/StatsAggregatorTests.cs:82-126 | One span adds a hit, its duration, an error iff it errored, a top-level hit iff top-level, and one sketch entry. |
| Stats.Add | tracer/test/Datadog.Trace.Tests/Agent/StatsAggregatorTests.cs:103-120 | An eligible (top-level or measured) span updates only its key's bucket. Any other span leaves the buffer unchanged. |
| Stats.RecordAllCounts | tracer/test/Datadog.Trace.Tests/Agent/StatsAggregatorTests.cs:115-126 | Recording spans adds hits = spans, errors = error spans, top-level hits = top-level spans, their exact duration sum, and ok/error sketch counts split by the error flag. |
| Stats.AddAllAccumulates | tracer/test/Datadog.Trace.Tests/Agent/StatsAggregatorTests.cs:93-115 | After a batch, each key's bucket is the old bucket with exactly the spans recorded under that key folded in, in order. |
| Stats.AddAllKeys | tracer/test/Datadog.Trace.Tests/Agent/StatsAggregatorTests.cs:93-115 | Every key of an aggregated buffer was already there or came from a recorded span. |
| Stats.AddAllPreservesWellFormed | tracer/test/Datadog.Trace.Tests/Agent/StatsAggregatorTests.cs:119-126 | Aggregation keeps errors ≤ hits and the sketch counts consistent with the hits and errors. |
| Stats.RecordSpansScenario | tracer/test/Datadog.Trace.Tests/Agent/StatsAggregatorTests.cs:79-129 | The test's five spans give one bucket with 4 hits, 1 error, 3 top-level hits, the summed duration, and 3 ok and 1 error sketch entries. |
| Stats.OnlyKeyRecorded | tracer/test/Datadog.Trace.Tests/Agent/StatsAggregatorTests.cs:93-115 | Spans sharing one key record nothing under any other key. |
| Stats.RecordedFromSpans | tracer/test/Datadog.Trace.Tests/Agent/StatsAggregatorTests.cs:103-111 | Every recorded span is one of the input spans. |
| Stats.Reset | tracer/test/Datadog.Trace.Tests/Agent/StatsBufferTests.cs:74-108 | Exactly the buckets with hits survive, each with every counter zero and both sketches empty. The header, start and sequence are kept. |
| Stats.ResetTwiceEmpties | tracer/test/Datadog.Trace.Tests/Agent/StatsBufferTests.cs:88-107 | Two resets in a row leave no bucket. |
| Stats.ResetWellFormed | tracer/test/Datadog.Trace.Tests/Agent/StatsBufferTests.cs:93-102 | A reset buffer is well formed. |
| Stats.GroupRoundTrip | tracer/test/Datadog.Trace.Tests/Agent/StatsBufferTests.cs:110-131 | A serialised group gives back its key and every counter unchanged, with no db type and synthetics false. |
| Stats.GroupsOfAllKeys | tracer/test/Datadog.Trace.Tests/Agent/StatsBufferTests.cs:40-68 | Enumerating every key writes one group per bucket with hits and none for idle buckets. |
| Stats.Serialize | tracer/test/Datadog.Trace.Tests/Agent/StatsBufferTests.cs:27-72 | The header fields are copied and the sequence is incremented. There is one time bucket with the buffer's start, the given duration and shift 0, holding exactly the busy buckets. |
| Stats.SerializeFreshBuffer | tracer/test/Datadog.Trace.Tests/Agent/StatsBufferTests.cs:27-72 | A fresh buffer serialises with sequence 1, and of three buckets only the two with hits are written. |
| Stats.Flush | tracer/test/Datadog.Trace.Tests/Agent/StatsAggregatorTests.cs:51-77 | A cancelled flush does nothing. A buffer is sent iff it has hits, and after sending it is reset. |
| Stats.CanceledFlushNeverSends | tracer/test/Datadog.Trace.Tests/Agent/StatsAggregatorTests.cs:65-77 | A flush with a cancelled token never sends. |
| Stats.NoSendWithoutEligibleSpans | tracer/test/Datadog.Trace.Tests/Agent/StatsAggregatorTests.cs:51 | With no eligible span added, a fresh buffer is never sent. |
| Telemetry.Agentless | tracer/src/Datadog.Trace/Telemetry/TelemetrySettings.cs:18-35 | Explicit false is never agentless. Otherwise agentless iff an API key is present. |
| Telemetry.Settings | tracer/src/Datadog.Trace/Telemetry/TelemetrySettings.cs:13-66 | The constructor throws exactly when it sends directly, no requested URI is usable and the site's intake URI does not parse. Otherwise: error iff agentless is explicitly on without a key. Enabled is the explicit switch, else the agentless decision. Direct iff enabled and agentless. The key is kept only when direct. A URI exists iff enabled, and it is the agent URI when not direct. |
| Telemetry.DirectIntakeUri | tracer/src/Datadog.Trace/Telemetry/TelemetrySettings.cs:47-60 | Sending directly, a non-empty absolute requested URI wins. Otherwise the URI is the intake of the site (`datadoghq.com` by default) as `new Uri` parses it, and an unparsable one fails the constructor. |
| Telemetry.AgentUriIgnoresRequest | tracer/src/Datadog.Trace/Telemetry/TelemetrySettings.cs:62-66 | Through the agent, changing the requested URI or the site changes nothing. |
| Telemetry.ValidUriIsUsed | tracer/test/Datadog.Trace.Tests/Telemetry/TelemetrySettingsTests.cs:27-45 | A key and a parsable URI give that URI, normalised. |
| Telemetry.NoApiKeyUsesAgent | tracer/test/Datadog.Trace.Tests/Telemetry/TelemetrySettingsTests.cs:47-111 | Without a key, whatever URI is requested, the agent endpoint is used. |
| Telemetry.OnlyApiKeyUsesIntake | tracer/test/Datadog.Trace.Tests/Telemetry/TelemetrySettingsTests.cs:62-76 | A key alone gives the default intake URI, sent directly, with no error. |
| Telemetry.SiteSelectsIntakeDomain | tracer/test/Datadog.Trace.Tests/Telemetry/TelemetrySettingsTests.cs:78-94 | A key and a site give that site's intake URI. |
| Telemetry.InvalidUriUsesIntake | tracer/test/Datadog.Trace.Tests/Telemetry/TelemetrySettingsTests.cs:113-132 | A key and an unparsable URI give the default intake URI. |
| Telemetry.EnabledTable | tracer/test/Datadog.Trace.Tests/Telemetry/TelemetrySettingsTests.cs:134-153 | The six rows of the enabled table, and no error when agentless is unset. |
| Telemetry.AgentlessTable | tracer/test/Datadog.Trace.Tests/Telemetry/TelemetrySettingsTests.cs:155-198 | Explicit true with a key is agentless; without a key it is an error and not agentless. Explicit false never is; unset follows the key. |
| Telemetry.HttpFactory | tracer/src/Datadog.Trace/Telemetry/Transports/TelemetryTransportStrategy.cs:19-60 | `HttpClient` iff .NET Core, otherwise `WebRequest`, with the given headers and a 15 s timeout. |
| Telemetry.DirectIntakeFactory | tracer/src/Datadog.Trace/Telemetry/Transports/TelemetryTransportStrategy.cs:21-30 | Direct intake is the runtime's HTTP factory with the intake headers for the key. |
| Telemetry.AgentIntakeFactory | tracer/src/Datadog.Trace/Telemetry/Transports/TelemetryTransportStrategy.cs:32-63 | TCP goes to the agent host and port and named pipes to the pipe with its timeout. Unix sockets are used only on .NET Core 3.1+. Everything else is the HTTP factory with agent headers. |
| Telemetry.UnixSocketFallsBack | tracer/src/Datadog.Trace/Telemetry/Transports/TelemetryTransportStrategy.cs:45-52 | Below .NET Core 3.1 a Unix-socket setting gets exactly the default transport. |
| Telemetry.UnknownTransportIsDefault | tracer/src/Datadog.Trace/Telemetry/Transports/TelemetryTransportStrategy.cs:53-61 | An unknown transport value behaves as `Default`. |
| Telemetry.Create | tracer/src/Datadog.Trace/Telemetry/Transports/TelemetryTransportFactory.cs:13-24 | The transport is bound to the telemetry URI. Direct sending picks the direct factory, otherwise the agent one. |
| Telemetry.AgentTransportIgnoresApiKey | tracer/src/Datadog.Trace/Telemetry/Transports/TelemetryTransportFactory.cs:19-21 | The API key reaches only the direct transport. |
| Telemetry.TransportForSettings | tracer/src/Datadog.Trace/Telemetry/Transports/TelemetryTransportFactory.cs:17-23 | Enabled settings give the intake transport with the key when direct, and otherwise the agent transport. |
| WafRegex.FirstPresent | tracer/src/Datadog.Trace/AppSec/Waf/Rules/RegexMatchCondition.cs:35-41 | The index of the first input whose lookup key is in the data: present there, absent before. None means no key is present. |
| WafRegex.IsMatchInternal | tracer/src/Datadog.Trace/AppSec/Waf/Rules/RegexMatchCondition.cs:33-45 | Matches iff some input's lookup key is present and the search over the whole data matches. |
| WafRegex.IsMatch | tracer/src/Datadog.Trace/AppSec/Waf/Rules/RegexMatchCondition.cs:28-31 | Untransformed lookup: matches iff some input name is a data key and the search matches. |
| WafRegex.IsTransformedMatch | tracer/src/Datadog.Trace/AppSec/Waf/Rules/RegexMatchCondition.cs:47-50 | Transformed lookup: matches iff some transformed key is present and the search matches. |
| WafRegex.LaterInputsIgnored | tracer/src/Datadog.Trace/AppSec/Waf/Rules/RegexMatchCondition.cs:38-41 | Inputs after the first present one never change the result. |
| SpoeData.Encode | tracer/src/Datadog.Trace.HaproxySpoa/StreamProcessingOffload/TypedData.cs:31-162 | Booleans are one byte with the flag in the high nibble. Every other encoding starts with its type code. Null is one byte. Binary values are prefixed by their byte count, and strings by their UTF-16 length as written. Signed and unsigned integers use their varints. Addresses are parsed. An unknown type is an error. |
| SpoeData.EncodeCorrected | tracer/src/Datadog.Trace.HaproxySpoa/StreamProcessingOffload/TypedData.cs:155-162 | The corrected encoder prefixes a string by the number of bytes that follow. Every other value is encoded as written. |
| SpoeData.Utf16LengthBasicPlane | tracer/src/Datadog.Trace.HaproxySpoa/StreamProcessingOffload/TypedData.cs:158 | `string.Length` equals the number of characters exactly when no character lies beyond the basic plane. |
| SpoeData.EncodingsAgreeOnBasicPlane | tracer/src/Datadog.Trace.HaproxySpoa/StreamProcessingOffload/TypedData.cs:155-162 | The written and the corrected encodings differ exactly on strings with a character beyond the basic plane. |
| SpoeData.StringRoundTripAsWritten | tracer/src/Datadog.Trace.HaproxySpoa/StreamProcessingOffload/TypedData.cs:155-162 | As written, a reader recovers the ASCII bytes of every basic-plane string, whatever follows. |
| SpoeData.TypeByteRoundTrip | tracer/src/Datadog.Trace.HaproxySpoa/StreamProcessingOffload/TypedData.cs:38-45 | The low nibble of the first byte reads back as the type code, and the flag nibble is 1 exactly for `true`. |
| SpoeData.BinaryRoundTrip | tracer/src/Datadog.Trace.HaproxySpoa/StreamProcessingOffload/TypedData.cs:113-120 | A reader using the varint decoder recovers exactly the bytes, whatever follows. |
| SpoeData.StringRoundTrip | tracer/src/Datadog.Trace.HaproxySpoa/StreamProcessingOffload/TypedData.cs:155-162 | With the corrected prefix, a reader recovers exactly the ASCII bytes of any string. |
| SpoeData.StringPrefixAsWrittenOverstates | tracer/src/Datadog.Trace.HaproxySpoa/StreamProcessingOffload/TypedData.cs:155-162 | As written, the prefix counts UTF-16 units, so a string with one astral character announces 2 bytes and carries 1, and cannot be read back. |
| SpoeData.Ascii | tracer/src/Datadog.Trace.HaproxySpoa/StreamProcessingOffload/TypedData.cs:158-160 | One byte per character: ASCII is kept and anything else becomes `?`. |
| SpoeData.ToString | tracer/src/Datadog.Trace.HaproxySpoa/StreamProcessingOffload/TypedData.cs:84-111 | Booleans render as `true`/`false`, null and unknown types as the empty string, and text as itself. Binary uses base64 and integers use decimal. |
| SpoeData.ToStringAgreesWithEncode | tracer/src/Datadog.Trace.HaproxySpoa/StreamProcessingOffload/TypedData.cs:84-162 | For an ASCII string, the text `ToString` shows is exactly what a reader recovers from the encoding. A boolean shows `true` exactly when its flag nibble is set. |
| SpoeFrames.FragmentFrame | tracer/src/Datadog.Trace.HaproxySpoa/StreamProcessingOffload/Frames/AckFrame.cs:34-68 | A fitting frame is returned alone. Without positive capacity the loop diverges. Otherwise the result is the fragments of the payload cut at the capacity. |
| SpoeFrames.FragmentsFaithful | tracer/src/Datadog.Trace.HaproxySpoa/StreamProcessingOffload/Frames/AckFrame.cs:48-65 | The fragments rebuild the payload and each fits. The first is an ACK with this metadata; the rest are UNSET frames of the same stream and frame. Only the last has FIN. |
| SpoeFrames.ChunksFlatten | tracer/src/Datadog.Trace.HaproxySpoa/StreamProcessingOffload/Frames/AckFrame.cs:52-62 | The pieces concatenate back to the payload. |
| SpoeFrames.ChunksFit | tracer/src/Datadog.Trace.HaproxySpoa/StreamProcessingOffload/Frames/AckFrame.cs:52-61 | Every piece fits the capacity, and there is a single piece iff the payload fits. |
| SpoeFrames.ChunksCount | tracer/src/Datadog.Trace.HaproxySpoa/StreamProcessingOffload/Frames/AckFrame.cs:56-62 | There are as many pieces as needed and no more: all but the last are full. |
| PeHeaders.ReadUInt32RoundTrip | tracer/src/Datadog.Trace/Vendors/dnlib/PE/ImageNTHeaders.cs:43 | Reading four little-endian bytes back gives the written value and advances by four. |
| PeHeaders.SignatureHighBitsIgnored | tracer/src/Datadog.Trace/Vendors/dnlib/PE/ImageNTHeaders.cs:44-46 | Signatures agreeing in the low 16 bits are accepted alike. |
| PeHeaders.CreateOptionalHeader | tracer/src/Datadog.Trace/Vendors/dnlib/PE/ImageNTHeaders.cs:59-67 | The magic is peeked without moving the reader. 0x10B selects PE32 and 0x20B PE32+, and any other magic is an error even without verification. |
| PeHeaders.ReadNtHeaders | tracer/src/Datadog.Trace/Vendors/dnlib/PE/ImageNTHeaders.cs:41-50 | With verification on, a signature whose low half is not `PE` is rejected. The result records the start and the signature read there. |
| PeHeaders.ReadOrder | tracer/src/Datadog.Trace/Vendors/dnlib/PE/ImageNTHeaders.cs:43-48 | The file header is read right after the signature, and the optional header where the file header ends. |
| PeHeaders.Pe32ImageParses | tracer/src/Datadog.Trace/Vendors/dnlib/PE/ImageNTHeaders.cs:41-67 | An image with the `PE\0\0` signature and PE32 magic yields PE32 headers when the foreign parsers succeed. |
| AdoNet.DbType | src/Datadog.Trace.ClrProfiler.Managed/Integrations/AdoNetIntegration.cs:168-188 | No db type exactly for the two wrapper command classes. |
| AdoNet.WellKnownCommands | src/Datadog.Trace.ClrProfiler.Managed/Integrations/AdoNetIntegration.cs:172-185 | `SqlCommand` gives `sql-server`, `NpgsqlCommand` gives `postgres`, and `Command` gives the empty name. |
| AdoNet.SuffixStripped | src/Datadog.Trace.ClrProfiler.Managed/Integrations/AdoNetIntegration.cs:181-185 | Any other `<prefix>Command` is named by its lower-cased prefix. |
| AdoNet.OtherNamesLowered | src/Datadog.Trace.ClrProfiler.Managed/Integrations/AdoNetIntegration.cs:186 | A name not ending in `Command` is lower-cased whole. |
| AdoNet.CreateScope | src/Datadog.Trace.ClrProfiler.Managed/Integrations/AdoNetIntegration.cs:126-166 | A scope exists iff the integration is enabled and the command has a db type. It is `<dbType>.query` on service `<default>-<dbType>`. It carries the db type tag, then the command's connection tags, and the analytics rate. |
| AdoNet.ScopeForCommandClass | src/Datadog.Trace.ClrProfiler.Managed/Integrations/AdoNetIntegration.cs:126-188 | Any `<prefix>Command` other than the four special classes gets `<prefix>.query` on `<default>-<prefix>`, with the prefix lower-cased. |
| AdoNet.ScopeNamesDetermineEachOther | src/Datadog.Trace.ClrProfiler.Managed/Integrations/AdoNetIntegration.cs:148-153 | Under one default service, two scopes have the same service name exactly when they have the same operation name, and exactly when their db type agrees. |
| Loader.CleanAssemblyNames | src/Datadog.Trace.ClrProfiler.Managed.Loader/AssemblyLoader.cs:218-264 | A missing or empty array, or one with no valid name, gives none. An all-valid array is returned itself. Otherwise the result is the valid names in order, as many as there are valid names. |
| Loader.ValidNamesMembers | src/Datadog.Trace.ClrProfiler.Managed.Loader/AssemblyLoader.cs:254-263 | The cleaned list holds every valid name and nothing else. |
| Loader.ValidNamesCount | src/Datadog.Trace.ClrProfiler.Managed.Loader/AssemblyLoader.cs:234-263 | The cleaned list has one entry per counted valid name. |
| Loader.CountValidAll | src/Datadog.Trace.ClrProfiler.Managed.Loader/AssemblyLoader.cs:249-252 | All names count iff all are valid, and then nothing is dropped. |
| Loader.CountValidNone | src/Datadog.Trace.ClrProfiler.Managed.Loader/AssemblyLoader.cs:234-247 | No name counts iff none is valid. |
| Loader.RuntimeSubdir | src/Datadog.Trace.ClrProfiler.Managed.Loader/AssemblyLoader.cs:340-388 | On .NET Core, `netcoreapp3.1` iff 3.1+ or 5+, else `netstandard2.0`. On .NET Framework, `net461` iff the file version parses and is at least 4.6.1055.0, else `net45`. |
| Loader.FrameworkChoiceMonotone | src/Datadog.Trace.ClrProfiler.Managed.Loader/AssemblyLoader.cs:372-384 | A newer mscorlib never selects an older .NET Framework distribution. |
| Loader.FrameworkThreshold | src/Datadog.Trace.ClrProfiler.Managed.Loader/AssemblyLoader.cs:372-384 | 4.6.1055.0 gives `net461`. 4.6.1054.9999 and an unparsable version give `net45`. |
| Coverage.PackRangeRoundTrip | tracer/src/Datadog.Trace.Coverage.collector/AssemblyProcessor.cs:280-308 | Unpacking a packed range gives each field truncated to 16 bits. |
| Coverage.PackRangeInjective | tracer/src/Datadog.Trace.Coverage.collector/AssemblyProcessor.cs:280-283 | Ranges whose fields fit in 16 bits pack without collisions. |
| Coverage.Trunc16 | tracer/src/Datadog.Trace.Coverage.collector/AssemblyProcessor.cs:280-283 | The `(ushort)` cast: below 2^16 and congruent to the input modulo 2^16. |
| Coverage.RemoveShortOpCodes | tracer/src/Datadog.Trace.Coverage.collector/AssemblyProcessor.cs:407-423 | The fourteen tests widen a short branch to its long form and leave any other opcode unchanged. The result is never short. |
| Coverage.RemoveShortOpCodesIdempotent | tracer/src/Datadog.Trace.Coverage.collector/AssemblyProcessor.cs:407-423 | Widening twice is widening once. |
| Coverage.ShortIndex | tracer/src/Datadog.Trace.Coverage.collector/AssemblyProcessor.cs:409-422 | Every short branch is one of the fourteen opcodes the source widens. |
| Coverage.NetFrameworkValue | tracer/src/Datadog.Trace.Coverage.collector/AssemblyProcessor.cs:582-585 | Any `.NETFramework,Version=` value names the .NET Framework tracer. |
| Coverage.GetTracerTarget | tracer/src/Datadog.Trace.Coverage.collector/AssemblyProcessor.cs:575-609 | The first target-framework attribute with a known value decides; unknown values are passed over. Without one, the core library decides. |
| Coverage.FirstKnownIs | tracer/src/Datadog.Trace.Coverage.collector/AssemblyProcessor.cs:577-596 | The decisive attribute is the first with a recognised value. |
| Coverage.NoneKnown | tracer/src/Datadog.Trace.Coverage.collector/AssemblyProcessor.cs:597-608 | Without a recognised value, the core-library rule applies. |
| Coverage.ProcessDecision | tracer/src/Datadog.Trace.Coverage.collector/AssemblyProcessor.cs:69-90 | Instrumented iff neither attribute is present and the assembly is not a signed one targeting .NET Framework. `AvoidCoverage` is checked first. |
| Coverage.UnsignedPlainAssemblyInstrumented | tracer/src/Datadog.Trace.Coverage.collector/AssemblyProcessor.cs:69-90 | An unsigned assembly without the two attributes is always instrumented. |
| Runner.Validate | tracer/src/Datadog.Trace.Tools.Runner/RunCommand.cs:28-49 | Without arguments, "Missing command". Valid iff there is a command and every extra variable has '='. Otherwise the error names the first variable without '='. |
| Runner.FirstMalformed | tracer/src/Datadog.Trace.Tools.Runner/RunCommand.cs:37-46 | Valid iff every variable has '='. An error quotes the first variable without one. |
| Runner.ParseEnvironmentVariable | tracer/src/Datadog.Trace.Tools.Runner/RunCommand.cs:135-140 | The key has no '=', and key, '=' and value rebuild the variable, so the value keeps any further '='. |
| Runner.ParseEnvironmentVariableRoundTrip | tracer/src/Datadog.Trace.Tools.Runner/RunCommand.cs:135-140 | A key without '=' joined to any value splits back into the same pair. |
| Runner.LastVariableWins | tracer/src/Datadog.Trace.Tools.Runner/RunCommand.cs:65-78 | A key set by several variables ends with the value of the last one. |
| Runner.UnsetKeysKept | tracer/src/Datadog.Trace.Tools.Runner/RunCommand.cs:65-78 | A key no variable sets keeps its earlier value or stays absent. |
| Runner.Execute | tracer/src/Datadog.Trace.Tools.Runner/RunCommand.cs:51-133 | Exit 1 when the profiler environment cannot be built or the CI agent is unreachable. In every other case it runs the first argument with the composed arguments and the merged environment. |
| Runner.AdditionalVariablesOverrideCiFlag | tracer/src/Datadog.Trace.Tools.Runner/RunCommand.cs:65-78 | An explicit variable overrides the CI-visibility switch. |
| Runner.ArgumentsPassThrough | tracer/src/Datadog.Trace.Tools.Runner/RunCommand.cs:86-104 | Outside CI mode, or with a collector configured, the arguments are the rest joined by spaces. |
| Runner.DotnetTestGetsCollector | tracer/src/Datadog.Trace.Tools.Runner/RunCommand.cs:89-103 | `dotnet test` in CI mode gets `--collect DatadogCoverage` with the collector directory, and `test` wins over `vstest`. |
| AspNetTags.GetTag | tracer/src/Datadog.Trace/Generated/Datadog.Trace.SourceGenerators/Datadog.Trace.SourceGenerators.TagsListGenerator.TagListGenerator/AspNetTags.g.cs:13-23 | The four own keys read their properties; any other key is read from the base list. |
| AspNetTags.SetTag | tracer/src/Datadog.Trace/Generated/Datadog.Trace.SourceGenerators/Datadog.Trace.SourceGenerators.TagsListGenerator.TagListGenerator/AspNetTags.g.cs:25-45 | Setting an own key makes `GetTag` return the value and leaves every other key reading as before. Any other key goes to the base list. |
| AspNetTags.WriteBinary | tracer/src/Datadog.Trace/Generated/Datadog.Trace.SourceGenerators/Datadog.Trace.SourceGenerators.TagsListGenerator.TagListGenerator/AspNetTags.g.cs:47-75 | The set own tags are written in the order route, controller, action, area, then the base tags. The count is the set tags plus the base count. |
| AspNetTags.WriteText | tracer/src/Datadog.Trace/Generated/Datadog.Trace.SourceGenerators/Datadog.Trace.SourceGenerators.TagsListGenerator.TagListGenerator/AspNetTags.g.cs:77-108 | The text form renders the same tags in the same order as `key (tag):value,`, then the base text. |
| AspNetTags.WrittenAgreesWithGetTag | tracer/src/Datadog.Trace/Generated/Datadog.Trace.SourceGenerators/Datadog.Trace.SourceGenerators.TagsListGenerator.TagListGenerator/AspNetTags.g.cs:13-75 | An own key is written with a value iff `GetTag` returns that value. |
| AspNetTags.PresentMembers | tracer/src/Datadog.Trace/Generated/Datadog.Trace.SourceGenerators/Datadog.Trace.SourceGenerators.TagsListGenerator.TagListGenerator/AspNetTags.g.cs:50-72 | A pair is written iff its field is set to that value. |
| Headers.GetValues | tracer/src/Datadog.Trace.OpenTracing/TextMapHeadersCollection.cs:25-34 | The values yielded are those of the pairs whose key matches the name ignoring case, in enumeration order. A value is yielded iff some matching pair holds it. |
| Headers.MatchingMembers | tracer/src/Datadog.Trace.OpenTracing/TextMapHeadersCollection.cs:27-32 | A value is yielded iff some pair with a matching key holds it. |
| Headers.MatchingSingle | tracer/src/Datadog.Trace.OpenTracing/TextMapHeadersCollection.cs:29-32 | A single pair yields its value iff its key matches. |
| Headers.MatchingAppend | tracer/src/Datadog.Trace.OpenTracing/TextMapHeadersCollection.cs:27-33 | Values follow the enumeration: those of the first part, then those of the second, with repeats kept. |
| Headers.CaseOfNameIrrelevant | tracer/src/Datadog.Trace.OpenTracing/TextMapHeadersCollection.cs:29 | Names differing only in letter case look up the same values. |
| RouteValues.ConvertDictionary | tracer/src/Datadog.Trace/Util/Http/HttpRequestExtensions.cs:22-34 | The same keys. Null stays null and other objects become their string. A route-data list becomes a list of the same length. |
| RouteValues.ConvertValue | tracer/src/Datadog.Trace/Util/Http/HttpRequestExtensions.cs:27-31 | Null iff null, a string iff a plain object, and a list of converted dictionaries for a route-data list. |
| RouteValues.ConvertList | tracer/src/Datadog.Trace/Util/Http/HttpRequestExtensions.cs:36-40 | Same length and order, each element the converted dictionary of the nested route data. |
| RouteValues.ConvertIsShaped | tracer/src/Datadog.Trace/Util/Http/HttpRequestExtensions.cs:22-40 | Every conversion yields strings, nulls and lists of dictionaries, and nothing else. |
| RouteValues.ConvertLiftRoundTrip | tracer/src/Datadog.Trace/Util/Http/HttpRequestExtensions.cs:22-40 | A converted tree, read back as route data with string values, converts to itself. |

## Left out

- **I/O and asynchrony.** Network and transport I/O, `Task.Delay`, statsd, logging and JSON parsing are replaced by scripted outcomes, returned delay lists and flags.
- **Foreign calls are parameters.** `Version.TryParse` gives an optional version. The absolute-URI parser is an optional normalised string: `Uri.TryCreate` returns it, and `new Uri(string)` throws where it gives none. `VariableInt` and `IPAddress.Parse` are encoder functions. RE2 with `Visitor.DepthFirstSearch` is one predicate over the data. `MakeTransformInputKey` is a key function. The frame and metadata encoders supply their lengths. The PE file- and optional-header parsers are reader functions. Base64, decimal rendering and `ToString` are functions. The base tag list is a record of functions.
- **Case folding is ASCII only.** `ToLowerInvariant`, `OrdinalIgnoreCase` and `StringComparison.OrdinalIgnoreCase` fold ASCII letters only.
- **Culture-sensitive comparisons.** `EndsWith` and `StartsWith` without a comparison argument use the current culture in the source and are ordinal here. This covers the `Command` suffix test of `AdoNet.DbType` and the `System.Private.CoreLib` prefix test of `Loader.RuntimeSubdir`.
- **DDSketch floating point.** Sketch sums and relative accuracy are left out; a sketch is its count. The sketch internals, the timer-driven flush, concurrent `Add` and the buffer swap of the aggregator are left out too.
- **Stats source.** The `StatsBuffer`/`StatsAggregator` source is not part of this model; their behaviour follows the two test files.
  - **Reset rule.** The reset rule is the one `StatsBufferTests.cs` checks. A bucket that had no hits is removed at its first reset, and a bucket with hits survives one reset zeroed.
  - **Reset start.** `Reset` keeps the start time, which the tests do not pin.
- **DEBUG builds.** The DEBUG/Release distinction of `SendWithRetry` is a parameter, not a compilation symbol.
- SpoeFrames.FragmentFrame:
  - The `(int)` cast of `maxFrameSize` and 32-bit overflow are not modelled.
  - `ackFrame.Metadata = this.Metadata` may alias a metadata object and clear the original frame's FIN. This is not modelled: the metadata is a value.
  - UNSET fragments are taken to carry FIN only on the last and ABORT never. Their metadata is taken to have the same encoded length as the ACK's.
  - A non-positive capacity, where the source loops forever, is a `Diverges` error.
- **Typed-data construction.** The source pairs a type code with an untyped object. Here each type carries a value of its own kind, so a mismatched object (the source's cast exception) cannot be built. The type code values are those of section 3.1 of the SPOE specification.
- Runner.ParseEnvironmentVariable requires a '='. In the source, `Validate` guarantees it before `Execute` calls it, and `Execute` here requires a valid command line.
- **ADO.NET exception path.** The exception path of `CreateScope`, which logs and returns no scope, is not modelled. Building a scope here cannot fail.
- AdoNet.CreateScope: `AddTagsFromDbCommand` is foreign. The connection tags it derives from the command are an input, carried into the scope unchanged.
- **Null array elements.** Null elements of the argument array of `dd-trace run` are not modelled. Strings are never null there.
- **Managed-loader reflection.** The reflection in the managed loader is replaced by its results: the `object` assembly name, `Environment.Version` and the parsed file version.
- **`TextMapHeadersCollection.Set`.** It only forwards to the text map's own `Set`, which is not part of this model, so there is nothing to state beyond the call itself.
- **Left to their own modules.** IL rewriting, assembly file handling, and the rest of `AssemblyProcessor.Process` beyond its skip checks.

## Findings

| source | as written | input that shows it | evidently intended | confidence | as-written member | corrected member |
|---|---|---|---|---|---|---|
| tracer/src/Datadog.Trace.HaproxySpoa/StreamProcessingOffload/TypedData.cs:155-162 | The length prefix of a string is `string.Length`, which counts UTF-16 code units. The bytes that follow are `Encoding.ASCII.GetBytes`, which writes one `?` per surrogate pair. | The string "\U{1F600}" (one emoji): the prefix says 2, but one byte follows. | The prefix counts the bytes written, so a reader recovers the string's bytes. | medium, not executed | SpoeData.StringPrefixAsWrittenOverstates | SpoeData.StringRoundTrip |
