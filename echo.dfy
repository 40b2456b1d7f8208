/** The browser's one-time set-up of the realtime client (resources/js/echo.ts). */
module EchoClient {
  import opened Wrappers
  import opened JsText
  import ReverbMeta

  /** The build-time `VITE_REVERB_*` variables; each may be undefined. */
  datatype Env = Env(key: Option<string>, scheme: Option<string>, host: Option<string>, port: Option<string>)

  /** `readMeta(name)`: the tag's content, or null when the page has no such tag. */
  function ReadMeta(meta: map<string, string>, name: string): (r: Option<string>)
    ensures r.Some? <==> name in meta
    ensures r.Some? ==> r.value == meta[name]
  {
    if name in meta then Some(meta[name]) else None
  }

  /** `a ?? b` on nullable strings. */
  function OrElse(a: Option<string>, b: Option<string>): Option<string> {
    if a.Some? then a else b
  }

  /** The options the client is constructed with. */
  datatype EchoOptions = EchoOptions(
    key: string,
    wsHost: string,
    wsPort: JsNumber,
    wssPort: JsNumber,
    forceTLS: bool,
    enabledTransports: seq<string>)

  /** The key: the build variable, else the meta tag. */
  function Key(env: Env, meta: map<string, string>): Option<string> {
    OrElse(env.key, ReadMeta(meta, "reverb-app-key"))
  }

  predicate PageIsSecure(protocol: string) {
    protocol == "https:"
  }

  /** `configuredScheme`: build variable, else meta tag, else the page's own scheme. */
  function ConfiguredScheme(env: Env, meta: map<string, string>, protocol: string): string {
    OrElse(env.scheme, ReadMeta(meta, "reverb-scheme")).GetOr(if PageIsSecure(protocol) then "https" else "http")
  }

  /** `useTLS`: an https page always uses TLS; otherwise the configured scheme decides. */
  predicate UseTLS(env: Env, meta: map<string, string>, protocol: string) {
    (if PageIsSecure(protocol) then "https" else ConfiguredScheme(env, meta, protocol)) == "https"
  }

  /** `wsHost`: build variable, else meta tag, else "localhost". */
  function WsHost(env: Env, meta: map<string, string>): string {
    OrElse(env.host, ReadMeta(meta, "reverb-host")).GetOr("localhost")
  }

  /** `wsPort`: `Number` of the build variable, else of the meta tag; only when both
      are missing the TLS default 443 or the plain default 8080. */
  function WsPort(env: Env, meta: map<string, string>, protocol: string): JsNumber {
    match OrElse(env.port, ReadMeta(meta, "reverb-port"))
    case Some(text) => ToNumber(text)
    case None => Finite(if UseTLS(env, meta, protocol) then 443 else 8080)
  }

  /** The configuration `initializeEcho` derives: none when the key is missing or empty;
      otherwise one host and one port, the same port for both transports, and exactly
      the one transport that matches TLS. */
  function ResolveConnection(env: Env, meta: map<string, string>, protocol: string): (r: Option<EchoOptions>)
    ensures r.None? <==> Key(env, meta).None? || Key(env, meta).value == ""
    ensures r.Some? ==> r.value.key == Key(env, meta).value
    ensures r.Some? ==> r.value.wsHost == WsHost(env, meta)
    ensures r.Some? ==> r.value.wsPort == WsPort(env, meta, protocol) && r.value.wssPort == r.value.wsPort
    ensures r.Some? ==> r.value.forceTLS == UseTLS(env, meta, protocol)
    ensures r.Some? ==> r.value.enabledTransports == if r.value.forceTLS then ["wss"] else ["ws"]
  {
    var key := Key(env, meta);
    if key.None? || key.value == "" then None
    else
      var tls := UseTLS(env, meta, protocol);
      var port := WsPort(env, meta, protocol);
      Some(EchoOptions(key.value, WsHost(env, meta), port, port, tls, if tls then ["wss"] else ["ws"]))
  }

  /** The module state: the init-once flag and `window.Echo`. */
  class EchoModule {
    var echoInitialized: bool
    /** `window.Echo`: the client, known by its options, or null. */
    var echo: Option<EchoOptions>
    /** How many clients have been constructed so far. */
    var constructed: nat

    ghost predicate Valid()
      reads this
    {
      echoInitialized ==> echo.Some?
    }

    constructor ()
      ensures Valid() && !echoInitialized && echo == None && constructed == 0
    {
      echoInitialized := false;
      echo := None;
      constructed := 0;
    }

    /** `initializeEcho()`; `constructorThrows` says whether `new Echo` throws. Once a
        client exists it is returned as is; a missing key or a throwing constructor
        leaves null and the flag down, so a later call tries again. */
    method InitializeEcho(env: Env, meta: map<string, string>, protocol: string, constructorThrows: bool)
      returns (result: Option<EchoOptions>)
      requires Valid()
      modifies this
      ensures Valid()
      ensures old(echoInitialized) ==>
        result == old(echo) && echo == old(echo) && echoInitialized && constructed == old(constructed)
      ensures !old(echoInitialized) && ResolveConnection(env, meta, protocol).None? ==>
        result == None && echo == None && !echoInitialized && constructed == old(constructed)
      ensures !old(echoInitialized) && ResolveConnection(env, meta, protocol).Some? && constructorThrows ==>
        result == None && echo == None && !echoInitialized && constructed == old(constructed) + 1
      ensures !old(echoInitialized) && ResolveConnection(env, meta, protocol).Some? && !constructorThrows ==>
        result == ResolveConnection(env, meta, protocol) && echo == result && echoInitialized
        && constructed == old(constructed) + 1
    {
      if echoInitialized && echo.Some? {
        return echo;
      }
      var key := Key(env, meta);
      if key.None? || key.value == "" {
        echo := None;
        return None;
      }
      var tls := UseTLS(env, meta, protocol);
      var port := WsPort(env, meta, protocol);
      constructed := constructed + 1;
      if constructorThrows {
        echo := None;
        return None;
      }
      echo := Some(EchoOptions(key.value, WsHost(env, meta), port, port, tls, if tls then ["wss"] else ["ws"]));
      echoInitialized := true;
      result := echo;
    }

    /** `getEcho()`. */
    method GetEcho() returns (result: Option<EchoOptions>)
      ensures result == echo
    {
      result := echo;
    }
  }

  /** On an https page the connection uses TLS and only the secure transport, whatever
      the configured scheme says. */
  lemma SecurePageForcesTLS(env: Env, meta: map<string, string>)
    requires ResolveConnection(env, meta, "https:").Some?
    ensures ResolveConnection(env, meta, "https:").value.forceTLS
    ensures ResolveConnection(env, meta, "https:").value.enabledTransports == ["wss"]
  {
  }

  /** With no build variables, the client connects with exactly what the page shell
      advertised: its key, its host and its port, where a server with no configured port
      advertises 0 and the client keeps that 0 instead of its own default. */
  lemma ClientUsesShellValues(config: ReverbMeta.Config, request: ReverbMeta.RequestInfo, protocol: string)
    requires config.key.Some? && config.key.value != ""
    ensures var tags := ReverbMeta.MetaTags(config, request);
      var r := ResolveConnection(Env(None, None, None, None), tags, protocol);
      && r.Some? && r.value.key == config.key.value
      && r.value.wsHost == ReverbMeta.Host(config, request)
      && r.value.wsPort == Finite(ReverbMeta.Port(config))
      && (config.port.None? ==> r.value.wsPort == Finite(0))
  {
    var tags := ReverbMeta.MetaTags(config, request);
    var env := Env(None, None, None, None);
    assert Key(env, tags) == Some(config.key.value);
    assert WsHost(env, tags) == ReverbMeta.Host(config, request);
    assert OrElse(env.port, ReadMeta(tags, "reverb-port")) == Some(tags["reverb-port"]);
    ToNumberOfIntToString(ReverbMeta.Port(config));
    assert WsPort(env, tags, protocol) == Finite(ReverbMeta.Port(config));
  }

  /** A server with no key configured advertises an empty key, and the client then makes
      no connection. */
  lemma NoKeyNoConnection(config: ReverbMeta.Config, request: ReverbMeta.RequestInfo, protocol: string)
    requires config.key.None?
    ensures ResolveConnection(Env(None, None, None, None), ReverbMeta.MetaTags(config, request), protocol).None?
  {
  }
}
