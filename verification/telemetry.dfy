/**
 * Telemetry configuration and transport selection: the decision table that
 * turns the configured API key, the tri-state `Enabled` and
 * `AgentlessEnabled` switches, the requested URI and the site into the
 * telemetry settings, and the choice of request factory that follows.
 *
 * Parsing configuration values, URI parsing and `new Uri(base, path)` are
 * foreign. The absolute-URI parser is a parameter: `Uri.TryCreate(_,
 * UriKind.Absolute, _)` returns its result, and `new Uri(string)` runs the
 * same parser and throws where it fails. The agent endpoint URI is an
 * input. Compile-time target symbols become a `Runtime` value.
 */
module Telemetry {
  import opened Wrappers
  import Text

  const DefaultSite := "datadoghq.com"
  const IntakePrefix := "https://instrumentation-telemetry-intake"
  const AgentlessWithoutKeyError := "Telemetry configuration error: Agentless mode was enabled, but no API key was available"

  /** The configuration values read by the settings constructor; `None` is a missing value. */
  datatype TelemetryConfig = TelemetryConfig(
    apiKey: Option<string>,
    enabled: Option<bool>,
    agentlessEnabled: Option<bool>,
    requestedUri: Option<string>,
    site: Option<string>)

  datatype TelemetrySettings = TelemetrySettings(
    telemetryEnabled: bool,
    telemetryUri: Option<string>,
    apiKey: Option<string>,
    sendDirectlyToIntake: bool,
    configurationError: Option<string>)

  /** The `UriFormatException` the constructor lets escape, with the text it could not parse. */
  datatype SettingsError = InvalidIntakeUri(text: string)

  /**
   * Agentless mode: an explicit `true` needs an API key, an explicit `false`
   * never allows it, and an unset switch follows the presence of a key.
   */
  function Agentless(config: TelemetryConfig): (r: bool)
    ensures config.agentlessEnabled == Some(false) ==> !r
    ensures config.agentlessEnabled != Some(false) ==> (r <==> !Text.IsNullOrEmpty(config.apiKey))
  {
    match config.agentlessEnabled
    case Some(true) => !Text.IsNullOrEmpty(config.apiKey)
    case None => !Text.IsNullOrEmpty(config.apiKey)
    case Some(false) => false
  }

  /** The text of the default intake URI for a site, before parsing. */
  function IntakeUri(site: Option<string>): string {
    IntakePrefix + "." + (if Text.IsNullOrEmpty(site) then DefaultSite else site.value) + "/"
  }

  lemma DefaultIntakeUri()
    ensures IntakeUri(None) == "https://instrumentation-telemetry-intake.datadoghq.com/"
  {
    assert IntakeUri(None) == IntakePrefix + "." + DefaultSite + "/";
  }

  /** A requested URI is used when it is non-empty and parses as an absolute URI. */
  predicate RequestedUsable(config: TelemetryConfig, tryCreateAbsolute: string -> Option<string>) {
    !Text.IsNullOrEmpty(config.requestedUri) && tryCreateAbsolute(config.requestedUri.value).Some?
  }

  /**
   * The `TelemetrySettings` constructor. `tryCreateAbsolute` is the
   * absolute-URI parser, giving the normalised URI text; `agentTelemetryUri`
   * is the agent URI combined with the agent telemetry endpoint. The
   * constructor fails only when it sends directly, no requested URI is
   * usable, and the site's intake URI does not parse.
   */
  function Settings(config: TelemetryConfig, tryCreateAbsolute: string -> Option<string>, agentTelemetryUri: string): (r: Result<TelemetrySettings, SettingsError>)
    ensures r.Failure? <==> && config.enabled.GetOr(Agentless(config)) && Agentless(config)
                            && !RequestedUsable(config, tryCreateAbsolute) && tryCreateAbsolute(IntakeUri(config.site)).None?
    ensures r.Failure? ==> r.error == InvalidIntakeUri(IntakeUri(config.site))
    ensures r.Success? ==>
              var s := r.value;
              && (s.configurationError.Some? <==> config.agentlessEnabled == Some(true) && Text.IsNullOrEmpty(config.apiKey))
              && s.telemetryEnabled == config.enabled.GetOr(Agentless(config))
              && (s.sendDirectlyToIntake <==> s.telemetryEnabled && Agentless(config))
              && s.apiKey == (if s.sendDirectlyToIntake then config.apiKey else None)
              && (s.telemetryUri.Some? <==> s.telemetryEnabled)
              && (s.telemetryEnabled && !s.sendDirectlyToIntake ==> s.telemetryUri == Some(agentTelemetryUri))
  {
    var agentless := Agentless(config);
    var error := if config.agentlessEnabled == Some(true) && Text.IsNullOrEmpty(config.apiKey)
                 then Some(AgentlessWithoutKeyError) else None;
    var enabled := config.enabled.GetOr(agentless);
    if enabled && agentless then
      var uri :=
        if RequestedUsable(config, tryCreateAbsolute) then tryCreateAbsolute(config.requestedUri.value)
        else tryCreateAbsolute(IntakeUri(config.site));
      if uri.None? then Failure(InvalidIntakeUri(IntakeUri(config.site)))
      else Success(TelemetrySettings(true, uri, config.apiKey, true, error))
    else if enabled then
      Success(TelemetrySettings(true, Some(agentTelemetryUri), None, false, error))
    else
      Success(TelemetrySettings(false, None, None, false, error))
  }

  /**
   * Sending directly, a usable requested URI wins; otherwise the intake of
   * the configured site, `datadoghq.com` by default, as the parser reads it,
   * and a site that makes that URI unparsable fails the constructor.
   */
  lemma DirectIntakeUri(config: TelemetryConfig, tryCreateAbsolute: string -> Option<string>, agentTelemetryUri: string)
    requires config.enabled.GetOr(Agentless(config)) && Agentless(config)
    ensures var r := Settings(config, tryCreateAbsolute, agentTelemetryUri);
            var intake := tryCreateAbsolute(IntakeUri(config.site));
            && (RequestedUsable(config, tryCreateAbsolute) ==>
                  r.Success? && r.value.sendDirectlyToIntake && r.value.telemetryUri == tryCreateAbsolute(config.requestedUri.value))
            && (!RequestedUsable(config, tryCreateAbsolute) ==>
                  (r.Success? <==> intake.Some?) && (r.Success? ==> r.value.sendDirectlyToIntake && r.value.telemetryUri == intake))
  {
  }

  /** Through the agent, the requested URI and the site are ignored. */
  lemma AgentUriIgnoresRequest(config: TelemetryConfig, requested: Option<string>, site: Option<string>,
                               tryCreateAbsolute: string -> Option<string>, agentTelemetryUri: string)
    requires var r := Settings(config, tryCreateAbsolute, agentTelemetryUri);
             r.Success? && r.value.telemetryEnabled && !r.value.sendDirectlyToIntake
    ensures Settings(config.(requestedUri := requested, site := site), tryCreateAbsolute, agentTelemetryUri)
         == Settings(config, tryCreateAbsolute, agentTelemetryUri)
  {
  }

  // Rows of the settings test-suite. Where a row reaches the default intake,
  // the parser is required to accept the well-formed intake URI unchanged.

  function Config(apiKey: Option<string>, enabled: Option<bool>, agentless: Option<bool>, uri: Option<string>, site: Option<string>): TelemetryConfig {
    TelemetryConfig(apiKey, enabled, agentless, uri, site)
  }

  const DefaultIntake := "https://instrumentation-telemetry-intake.datadoghq.com/"

  /** Enabled with a key and no URI: the default intake, sent directly, no error. */
  lemma OnlyApiKeyUsesIntake(tryCreateAbsolute: string -> Option<string>, agentTelemetryUri: string)
    requires tryCreateAbsolute(DefaultIntake) == Some(DefaultIntake)
    ensures var r := Settings(Config(Some("some_key"), Some(true), None, None, None), tryCreateAbsolute, agentTelemetryUri);
            r.Success? && r.value.telemetryUri == Some(DefaultIntake)
            && r.value.sendDirectlyToIntake && r.value.configurationError == None
  {
    DefaultIntakeUri();
  }

  /** Enabled with a key and a site: the intake of that site. */
  lemma SiteSelectsIntakeDomain(tryCreateAbsolute: string -> Option<string>, agentTelemetryUri: string)
    requires var u := "https://instrumentation-telemetry-intake.my-domain.net/"; tryCreateAbsolute(u) == Some(u)
    ensures var r := Settings(Config(Some("some_key"), Some(true), None, None, Some("my-domain.net")), tryCreateAbsolute, agentTelemetryUri);
            r.Success? && r.value.telemetryUri == Some("https://instrumentation-telemetry-intake.my-domain.net/")
            && r.value.sendDirectlyToIntake && r.value.configurationError == None
  {
    assert IntakeUri(Some("my-domain.net")) == "https://instrumentation-telemetry-intake.my-domain.net/";
  }

  /** Enabled without a key, whatever URI is requested: the agent endpoint. */
  lemma NoApiKeyUsesAgent(uri: Option<string>, tryCreateAbsolute: string -> Option<string>, agentTelemetryUri: string)
    ensures var r := Settings(Config(None, Some(true), None, uri, None), tryCreateAbsolute, agentTelemetryUri);
            r.Success? && r.value.telemetryUri == Some(agentTelemetryUri) && !r.value.sendDirectlyToIntake
            && r.value.configurationError == None
  {
  }

  /** Enabled with a key and a URI the parser rejects: the default intake. */
  lemma InvalidUriUsesIntake(uri: string, tryCreateAbsolute: string -> Option<string>, agentTelemetryUri: string)
    requires tryCreateAbsolute(uri) == None
    requires tryCreateAbsolute(DefaultIntake) == Some(DefaultIntake)
    ensures var r := Settings(Config(Some("some_key"), Some(true), None, Some(uri), None), tryCreateAbsolute, agentTelemetryUri);
            r.Success? && r.value.telemetryUri == Some(DefaultIntake)
            && r.value.sendDirectlyToIntake && r.value.configurationError == None
  {
    DefaultIntakeUri();
  }

  /** Enabled with a key and a URI the parser accepts: that URI as normalised. */
  lemma ValidUriIsUsed(uri: string, normalised: string, tryCreateAbsolute: string -> Option<string>, agentTelemetryUri: string)
    requires uri != "" && tryCreateAbsolute(uri) == Some(normalised)
    ensures var r := Settings(Config(Some("some_key"), Some(true), None, Some(uri), None), tryCreateAbsolute, agentTelemetryUri);
            r.Success? && r.value.telemetryUri == Some(normalised) && r.value.sendDirectlyToIntake
            && r.value.configurationError == None
  {
  }

  /**
   * Telemetry is enabled by the explicit switch when set, otherwise by the
   * presence of an API key; none of these rows is a configuration error.
   */
  lemma EnabledTable(key: string, tryCreateAbsolute: string -> Option<string>, agentTelemetryUri: string)
    requires key != ""
    requires tryCreateAbsolute(IntakeUri(None)).Some?
    ensures !Settings(Config(None, None, None, None, None), tryCreateAbsolute, agentTelemetryUri).value.telemetryEnabled
    ensures Settings(Config(Some(key), None, None, None, None), tryCreateAbsolute, agentTelemetryUri).value.telemetryEnabled
    ensures !Settings(Config(None, Some(false), None, None, None), tryCreateAbsolute, agentTelemetryUri).value.telemetryEnabled
    ensures !Settings(Config(Some(key), Some(false), None, None, None), tryCreateAbsolute, agentTelemetryUri).value.telemetryEnabled
    ensures Settings(Config(None, Some(true), None, None, None), tryCreateAbsolute, agentTelemetryUri).value.telemetryEnabled
    ensures Settings(Config(Some(key), Some(true), None, None, None), tryCreateAbsolute, agentTelemetryUri).value.telemetryEnabled
    ensures forall apiKey: Option<string>, enabled: Option<bool> ::
      var r := Settings(Config(apiKey, enabled, None, None, None), tryCreateAbsolute, agentTelemetryUri);
      r.Success? && r.value.configurationError == None
  {
  }

  /**
   * With only the agentless switch configured: an explicit `true` is
   * honoured with a key and is a configuration error without one; an
   * explicit `false` disables telemetry; unset follows the key.
   */
  lemma AgentlessTable(apiKey: Option<string>, tryCreateAbsolute: string -> Option<string>, agentTelemetryUri: string)
    requires tryCreateAbsolute(IntakeUri(None)).Some?
    ensures var r := Settings(Config(apiKey, None, Some(true), None, None), tryCreateAbsolute, agentTelemetryUri);
            var hasKey := !Text.IsNullOrEmpty(apiKey);
            r.Success? && r.value.telemetryEnabled == hasKey && r.value.sendDirectlyToIntake == hasKey
            && (r.value.configurationError.Some? <==> !hasKey)
    ensures var r := Settings(Config(apiKey, None, Some(false), None, None), tryCreateAbsolute, agentTelemetryUri);
            r.Success? && !r.value.telemetryEnabled && !r.value.sendDirectlyToIntake && r.value.configurationError == None
    ensures var r := Settings(Config(apiKey, None, None, None, None), tryCreateAbsolute, agentTelemetryUri);
            var hasKey := !Text.IsNullOrEmpty(apiKey);
            r.Success? && r.value.telemetryEnabled == hasKey && r.value.sendDirectlyToIntake == hasKey
            && r.value.configurationError == None
  {
  }

  // ---------------------------------------------------------------------------
  // Transport selection

  /** The target the tracer was compiled for: .NET Framework, or .NET Core below or from 3.1. */
  datatype Runtime = NetFramework | NetCoreBelow31 | NetCore31OrGreater {
    predicate IsNetCoreApp() { this != NetFramework }
  }

  /** `TracesTransportType`; `Other` is any value outside the named cases. */
  datatype TracesTransport = Default | CustomTcpProvider | WindowsNamedPipe | UnixDomainSocket | Other(code: int)

  datatype ExporterSettings = ExporterSettings(
    tracesTransport: TracesTransport,
    agentHost: string,
    agentPort: int,
    pipeName: string,
    pipeTimeoutMs: int,
    unixDomainSocketPath: string)

  datatype Headers = IntakeHeaders(apiKey: Option<string>) | AgentHeaders

  datatype StreamFactory = Tcp(host: string, port: int) | NamedPipe(pipeName: string, timeoutMs: int) | UnixSocket(path: string)

  /** The request factory kinds; the HTTP ones carry their headers and timeout in seconds. */
  datatype RequestFactory =
    | HttpClientFactory(headers: Headers, timeoutSeconds: int)
    | WebRequestFactory(headers: Headers, timeoutSeconds: int)
    | HttpStreamFactory(stream: StreamFactory)

  const TimeoutSeconds := 15

  /** The plain HTTP factory of a runtime: `HttpClient` on .NET Core, `WebRequest` otherwise. */
  function HttpFactory(runtime: Runtime, headers: Headers): (f: RequestFactory)
    ensures f.HttpClientFactory? <==> runtime.IsNetCoreApp()
    ensures !f.HttpStreamFactory? && f.headers == headers && f.timeoutSeconds == TimeoutSeconds
  {
    if runtime.IsNetCoreApp() then HttpClientFactory(headers, TimeoutSeconds) else WebRequestFactory(headers, TimeoutSeconds)
  }

  /** `GetDirectIntakeFactory`: an HTTP factory with the intake headers for the key. */
  function DirectIntakeFactory(runtime: Runtime, settings: ExporterSettings, apiKey: Option<string>): (f: RequestFactory)
    ensures f == HttpFactory(runtime, IntakeHeaders(apiKey))
  {
    HttpFactory(runtime, IntakeHeaders(apiKey))
  }

  /** `GetAgentIntakeFactory`: the traces transport decides; Unix sockets need .NET Core 3.1. */
  function AgentIntakeFactory(runtime: Runtime, settings: ExporterSettings): (f: RequestFactory)
    ensures settings.tracesTransport == CustomTcpProvider ==> f == HttpStreamFactory(Tcp(settings.agentHost, settings.agentPort))
    ensures settings.tracesTransport == WindowsNamedPipe ==> f == HttpStreamFactory(NamedPipe(settings.pipeName, settings.pipeTimeoutMs))
    ensures settings.tracesTransport == UnixDomainSocket && runtime == NetCore31OrGreater
            ==> f == HttpStreamFactory(UnixSocket(settings.unixDomainSocketPath))
    ensures f.HttpStreamFactory? <==>
            settings.tracesTransport in {CustomTcpProvider, WindowsNamedPipe}
            || (settings.tracesTransport == UnixDomainSocket && runtime == NetCore31OrGreater)
    ensures !f.HttpStreamFactory? ==> f == HttpFactory(runtime, AgentHeaders)
  {
    match settings.tracesTransport
    case CustomTcpProvider => HttpStreamFactory(Tcp(settings.agentHost, settings.agentPort))
    case WindowsNamedPipe => HttpStreamFactory(NamedPipe(settings.pipeName, settings.pipeTimeoutMs))
    case UnixDomainSocket =>
      if runtime == NetCore31OrGreater then HttpStreamFactory(UnixSocket(settings.unixDomainSocketPath))
      else HttpFactory(runtime, AgentHeaders)
    case _ => HttpFactory(runtime, AgentHeaders)
  }

  /** Below .NET Core 3.1 a Unix-socket configuration gets exactly the default transport. */
  lemma UnixSocketFallsBack(runtime: Runtime, settings: ExporterSettings)
    requires runtime != NetCore31OrGreater
    ensures AgentIntakeFactory(runtime, settings.(tracesTransport := UnixDomainSocket))
         == AgentIntakeFactory(runtime, settings.(tracesTransport := Default))
  {
  }

  /** Unknown transport values behave as `Default`. */
  lemma UnknownTransportIsDefault(runtime: Runtime, settings: ExporterSettings, code: int)
    ensures AgentIntakeFactory(runtime, settings.(tracesTransport := Other(code)))
         == AgentIntakeFactory(runtime, settings.(tracesTransport := Default))
  {
  }

  /** The telemetry transport: a request factory bound to the telemetry URI. */
  datatype Transport = JsonTelemetryTransport(factory: RequestFactory, uri: string)

  /** `TelemetryTransportFactory.Create`. */
  function Create(runtime: Runtime, settings: ExporterSettings, sendDirectlyToIntake: bool, telemetryUri: string, apiKey: Option<string>): (t: Transport)
    ensures t.uri == telemetryUri
    ensures sendDirectlyToIntake ==> t.factory == DirectIntakeFactory(runtime, settings, apiKey)
    ensures !sendDirectlyToIntake ==> t.factory == AgentIntakeFactory(runtime, settings)
  {
    var factory := if sendDirectlyToIntake then DirectIntakeFactory(runtime, settings, apiKey) else AgentIntakeFactory(runtime, settings);
    JsonTelemetryTransport(factory, telemetryUri)
  }

  /** The API key reaches the transport only when sending directly. */
  lemma AgentTransportIgnoresApiKey(runtime: Runtime, settings: ExporterSettings, telemetryUri: string, k1: Option<string>, k2: Option<string>)
    ensures Create(runtime, settings, false, telemetryUri, k1) == Create(runtime, settings, false, telemetryUri, k2)
  {
  }

  /**
   * End to end: enabled agentless settings yield an HTTP transport with the
   * intake headers for the configured key, and enabled agent settings one
   * whose choice depends on the traces transport only.
   */
  lemma TransportForSettings(config: TelemetryConfig, tryCreateAbsolute: string -> Option<string>, agentTelemetryUri: string,
                             runtime: Runtime, exporter: ExporterSettings)
    requires var r := Settings(config, tryCreateAbsolute, agentTelemetryUri); r.Success? && r.value.telemetryEnabled
    ensures var s := Settings(config, tryCreateAbsolute, agentTelemetryUri).value;
            var t := Create(runtime, exporter, s.sendDirectlyToIntake, s.telemetryUri.value, s.apiKey);
            && (Agentless(config) ==> t.factory == HttpFactory(runtime, IntakeHeaders(config.apiKey)))
            && (!Agentless(config) ==> t.factory == AgentIntakeFactory(runtime, exporter) && t.uri == agentTelemetryUri)
  {
  }
}
