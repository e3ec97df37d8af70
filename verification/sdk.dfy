/** The options of the ngrok client library the plugin hands its configuration to.
    Each constructor stands for one option function of the library; the plugin only
    builds these values, the library interprets them. */
module Sdk {
  import opened Common

  /** `config.Scheme`; `Unset` is the zero value. */
  datatype SchemeKind = Unset | SchemeHttp | SchemeHttps

  /** Options of an endpoint or tunnel (`config.HTTPEndpointOption`,
      `config.TLSEndpointOption`, `config.TCPEndpointOption`,
      `config.LabeledTunnelOption`). */
  datatype EndpointOpt =
    | Domain(domain: string)
    | Metadata(metadata: string)
    | AllowCidr(allowed: seq<string>)
    | DenyCidr(denied: seq<string>)
    | Scheme(scheme: SchemeKind)
    | CircuitBreaker(ratio: string)
    | Compression
    | WebsocketTcpConversion
    | BasicAuth(username: string, password: string)
    | RequestHeader(name: string, value: string)
    | RemoveRequestHeader(removed: string)
    | ResponseHeader(responseName: string, responseValue: string)
    | RemoveResponseHeader(responseRemoved: string)
    | OAuthOption(provider: string, oauthOpts: seq<OAuthOpt>)
    | OidcOption(issuerUrl: string, clientId: string, clientSecret: string, oidcOpts: seq<OidcOpt>)
    | WebhookVerification(webhookProvider: string, secret: string)
    | RemoteAddr(addr: string)
    | TlsTermination(certPem: seq<byte>, keyPem: seq<byte>)
    | Label(labelName: string, labelValue: string)

  /** Options of the OAuth option (`config.OAuthOption`). */
  datatype OAuthOpt =
    | AllowOAuthEmail(emails: seq<string>)
    | AllowOAuthDomain(domains: seq<string>)
    | OAuthScope(scopes: seq<string>)

  /** Options of the OIDC option (`config.OIDCOption`). */
  datatype OidcOpt =
    | AllowOidcEmail(emails: seq<string>)
    | AllowOidcDomain(domains: seq<string>)
    | OidcScope(scopes: seq<string>)

  /** Options of the ngrok session (`ngrok.ConnectOption`). */
  datatype SessionOpt =
    | Logger
    | AuthtokenFromEnv
    | Authtoken(token: string)
    | SessionMetadata(metadata: string)
    | Region(region: string)
    | Server(server: string)
    | HeartbeatInterval(interval: int)
    | HeartbeatTolerance(tolerance: int)
}
