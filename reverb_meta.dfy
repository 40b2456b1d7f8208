/** The server-side connection details the page shell writes for the browser
    (the `@php` block and the four `reverb-*` meta tags of resources/views/app.blade.php). */
module ReverbMeta {
  import opened Wrappers
  import Decimal

  /** The reverb connection configuration; each entry may be unset. */
  datatype Config = Config(key: Option<string>, host: Option<string>, port: Option<int>, scheme: Option<string>)

  /** The host and scheme of the request that renders the page. */
  datatype RequestInfo = RequestInfo(host: string, scheme: string)

  /** PHP truthiness of a nullable string: set, not empty and not "0". */
  predicate PhpTruthy(s: Option<string>) {
    s.Some? && s.value != "" && s.value != "0"
  }

  /** Server bind addresses a browser cannot connect to. */
  const BindAddresses: seq<string> := ["0.0.0.0", "127.0.0.1", "::", "::1", "localhost"]

  /** `$reverbHost`: the configured host when truthy, else the request host; then a
      falsy host or a bind address is replaced by the request host. */
  function Host(config: Config, request: RequestInfo): (host: string)
    ensures PhpTruthy(config.host) && config.host.value !in BindAddresses ==> host == config.host.value
    ensures !(PhpTruthy(config.host) && config.host.value !in BindAddresses) ==> host == request.host
  {
    var chosen := if PhpTruthy(config.host) then config.host.value else request.host;
    if !PhpTruthy(Some(chosen)) || chosen in BindAddresses then request.host else chosen
  }

  /** `$reverbPort`: the configured port, or 0 when none is configured. */
  function Port(config: Config): (port: int)
    ensures config.port.None? ==> port == 0
    ensures config.port.Some? ==> port == config.port.value
  {
    config.port.GetOr(0)
  }

  /** `$reverbScheme`: the configured scheme when truthy, else the request scheme. */
  function Scheme(config: Config, request: RequestInfo): (scheme: string)
    ensures PhpTruthy(config.scheme) ==> scheme == config.scheme.value
    ensures !PhpTruthy(config.scheme) ==> scheme == request.scheme
  {
    if PhpTruthy(config.scheme) then config.scheme.value else request.scheme
  }

  /** The content of the four meta tags: an unset key prints as empty text and the port
      in decimal. */
  function MetaTags(config: Config, request: RequestInfo): (tags: map<string, string>)
    ensures tags.Keys == {"reverb-app-key", "reverb-host", "reverb-port", "reverb-scheme"}
    ensures tags["reverb-app-key"] == config.key.GetOr("")
    ensures tags["reverb-host"] == Host(config, request)
    ensures tags["reverb-port"] == Decimal.IntToString(Port(config))
    ensures tags["reverb-scheme"] == Scheme(config, request)
  {
    map["reverb-app-key" := config.key.GetOr(""),
        "reverb-host" := Host(config, request),
        "reverb-port" := Decimal.IntToString(Port(config)),
        "reverb-scheme" := Scheme(config, request)]
  }

  /** The page never advertises a bind address or an empty host, unless the request
      itself arrived under that name. */
  lemma HostIsConnectable(config: Config, request: RequestInfo)
    requires request.host !in BindAddresses && request.host != ""
    ensures Host(config, request) !in BindAddresses && Host(config, request) != ""
  {
  }
}
