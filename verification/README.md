# caddy-ngrok-listener, modelled in Dafny

The model covers the configuration layer of the Caddy `ngrok` listener wrapper. The wrapper reads an `ngrok { … }` block from a Caddyfile. The block holds the session settings and one tunnel: `tcp`, `tls`, `http` or `labeled`. An `http` tunnel holds only its stored options and its basic-auth credentials. The header rules and the `oidc`, `oauth` and `webhook_verification` blocks have parsers and provisioners of their own, but they are not registered modules and the `http` tunnel does not reach them. The model covers them as standalone blocks. Provisioning does three things in turn:

1. It replaces placeholders in the settings.
2. It validates the few fields that must be set.
3. It assembles the ordered option lists that are handed to the ngrok client library.

The model is made of pure functions. The parsers map lexed Caddyfile lines to an immutable record or an error. Provisioning maps a record to a list of option values, or to an error. Lemmas relate the parsers, the placeholder pass and the option assembly to one another.

Modules, one per source file or concern:

- `Common` (common.dfy) holds the result and error types and the lexed line. It also holds the outside collaborators, passed in as `Env`: the placeholder replacer, float and duration parsers, and the file reader. The remaining pieces are the handful of Go `strings` functions the plugin uses, and the generic helpers for the Caddyfile dispenser and for option lists.
- `Sdk` (sdk.dfy) has one constructor per option function of the ngrok library that the plugin calls.
- `Headers` (headers.dfy) models http_headers.go, http_request_headers.go and http_response_headers.go.
- `HttpOptions` (httpoptions.go) and `HttpTunnel` (http.go), in httpoptions.dfy and http.dfy.
- `TlsTunnel`, `TcpTunnel`, `Labeled` (tls.dfy, tcp.dfy, labeled.dfy).
- `Oidc`, `OAuth`, `Webhook` (oidc.dfy, oauth.dfy, webhook.dfy).
- `Session` (ngrok.dfy) models ngrok.go.

A Caddyfile line is `Line(name, args, block)`. The block is either `NoBlock` or `Braces(lines)`. Two dispenser behaviours are modelled explicitly, because they change what the code accepts:

- A handler that reads fewer arguments than its line has leaves the remainder to the enclosing loop. That loop reads the next argument as a new directive (`Common.Expand`). This happens for `compression` and `websocket_tcp_converter` with two or more arguments, `authtoken` with two or more arguments, and `labels` with any argument.
- A block attached to a directive that reads none is read as a directive named `{`.

Where descriptions of the plugin differ from its Go code, the model follows the code:

- `authtoken` with two or more arguments does not simply set the empty token, because its second argument is then parsed as a directive.
- There is no `auth_token` spelling.
- The `http` parser knows only `domain`, `metadata`, `scheme`, `allow`, `deny`, `circuit_breaker`, `compression`, `websocket_tcp_converter` and `basic_auth`.
- A toggle accepts `off` or any `strconv.ParseBool` literal. There is no `on`.

## Model

| member | source | states |
|---|---|---|
| Headers.ApplyHeaderOp | http_headers.go:97-118 | a `?` field is rejected and changes nothing; a `-` field appends the rest of its name to the removed list and leaves the added map unchanged; a `+` or bare field sets exactly that one header, without its `+`, and leaves every other header and the removed list unchanged |
| Headers.ParseHeaderDirective | http_headers.go:46-72 | more than one value after an inline field is an argument error; an inline field together with a non-empty block is rejected |
| Headers.ApplyOpsOk | http_headers.go:97-118 | applying a sequence of operations succeeds iff none is a `?` operation |
| Headers.ApplyOpsRemoved | http_headers.go:97-118 | successful operations append the removed names in operation order |
| Headers.ApplyOpsAdded | http_headers.go:97-118 | after successful operations a header is set iff it was set before or some operation sets it, to the value of the last such operation |
| Headers.ParseAppliesOps | http_headers.go:46-95 | parsing `header` directives in inline and block form is applying their operations in reading order; block field names lose one trailing `:` and a missing value is the empty string |
| Headers.RemovedInOccurrenceOrder | http_headers.go:97-118 | after a successful parse the removed list is the `-` names in occurrence order across inline and block forms, and each set header carries the value of its last set operation |
| Headers.ReplaceHeaders | http_headers.go:19-44 | the removed list keeps its length and order with each name replaced; the added map's names are exactly the replaced names, each carrying the replaced value of a configured header with that replaced name |
| Headers.ReplaceKeepsDistinctNames | http_headers.go:19-32 | when replacement keeps distinct names distinct, every configured header survives replacement with its replaced value |
| Headers.AssembleHeaders | http_request_headers.go:15-23 | set options in the visiting order, all before one remove option per removed name in removed order; the count is the number of added plus removed headers |
| Headers.AssembledCoversAdded | http_request_headers.go:15-18 | every added header has its set option among the set options |
| Headers.ProvisionedHeadersComeFromConfig | http_request_headers.go:12-17 | every set option carries a configured header with its name and value replaced, so replacement happens before any option is built |
| Headers.ProvisionRequestHeaders | http_request_headers.go:12-24 | only request-header options; one per replaced added header, then one remove option per removed name, replaced, in order; it cannot fail |
| Headers.ProvisionResponseHeaders | http_response_headers.go:12-24 | the same for response-header options |
| HttpTunnel.ToggleRaw | http.go:157-191 | a toggle succeeds iff it has no argument, `off`, or a boolean literal; it stores `true`, `false` or the literal as written; otherwise it fails naming the directive and value |
| HttpTunnel.ParseBasicAuth | http.go:247-300 | an inline user and password, or one credential per block line, never both; a password under eight UTF-8 bytes, a wrong argument count or no credential at all is an error; on success the credentials are those written, at least one |
| HttpTunnel.ParseLines | http.go:96-155 | the `http` block is accepted iff every directive line is |
| HttpTunnel.ParsedCreds | http.go:247-293 | credentials from all `basic_auth` directives of an accepted block accumulate in occurrence order |
| HttpTunnel.ParseLinesError | http.go:96-155 | a rejected block reports the error of its first rejected line (unrecognised directive, wrong arity, bad boolean, non-numeric breaker ratio) |
| HttpTunnel.Parse | http.go:96-104 | an argument on the `http` line is an argument error; an empty block gives no options and no credentials |
| HttpTunnel.ParsedLastWins | http.go:109-143 | for `domain`, `metadata`, `scheme`, `circuit_breaker` and the toggles, the last line decides the stored option; `scheme` is stored unchecked (the cases at lines 109-118 and 127-143) |
| HttpTunnel.ParsedCidrs | http.go:193-245 | consecutive single-argument `allow`/`deny` lines store a JSON array of all values in occurrence order; a later multi-argument line makes the array malformed |
| HttpTunnel.ToggleLeftover | http.go:157-191 | a toggle with a second argument that names no directive fails with that argument as an unrecognised directive |
| HttpTunnel.ParsedToggleEncodes | http.go:157-191 | a parsed toggle's stored literal is a JSON document iff it was written as nothing, `off`, `true`, `false`, `1` or `0` |
| HttpTunnel.ParsedToggleLoads | http.go:157-191 | a parsed toggle's stored literal loads iff it was written as nothing, `off`, `true` or `false`, and then enables its option iff it was nothing or `true` |
| HttpTunnel.ParsedBreakerLoads | http.go:302-314 | a ratio accepted by the parser loads iff it is also a JSON number: `0.5` does, `.5` and `+1` do not |
| HttpTunnel.LoadAll | http.go:53-56 | loading the stored options succeeds iff every option loads, with the same keys and each loaded value; a failure reports the first failing option in load order |
| HttpTunnel.Provision | http.go:48-56 | provisioning succeeds iff every stored option loads |
| HttpTunnel.ProvisionedCreds | http.go:64-89 | the option list ends with one basic-auth option per credential, replaced, in credential order |
| HttpTunnel.ProvisionedModulesSound | http.go:57-61 | every option before the credentials is the non-nil option of some stored option's loaded module |
| HttpTunnel.ProvisionedModulesComplete | http.go:57-61 | every stored option whose loaded module has a non-nil option contributes it before the credentials |
| HttpTunnel.EmitModulesCount | http.go:57-61 | visiting an enumeration of the loaded modules emits exactly as many options as there are modules with a non-nil option |
| HttpTunnel.ProvisionedModulesCount | http.go:57-61 | the options before the credentials are exactly as many as the stored options whose module has a non-nil option, in every map iteration order |
| HttpOptions.Decode | httpoptions.go:168-208 | a breaker ratio decodes iff it is a JSON number that parses as a float; a toggle iff it is `true` or `false`, enabled iff `true`; a CIDR list iff its JSON array is well formed |
| HttpOptions.ProvisionModule | httpoptions.go:30-137 | CIDR lists are replaced element-wise, keeping length and order; every other module is left unchanged, its provisioning having a value receiver (the `Provision` methods at lines 30-37, 59-66, 88-92, 119-123 and 133-137) |
| HttpOptions.ValidateScheme | httpoptions.go:148-155 | a scheme is valid iff, trimmed and lower-cased, it is `http` or `https`; otherwise the error names the scheme as written |
| HttpOptions.SchemeOption | httpoptions.go:157-166 | the scheme option is `SchemeHttp` iff the normalised value is `http`, `SchemeHttps` iff it is `https`, and unset otherwise |
| HttpOptions.SchemeIgnoresSpaceAndCase | httpoptions.go:148-166 | surrounding white space does not change validation or the resulting scheme |
| HttpOptions.ModuleOption | httpoptions.go:48-226 | a CIDR list yields its one option iff it is non-empty; domain, metadata, scheme and breaker always yield their one option; a toggle yields its option iff it is on (the `HTTPOption` methods of every module type) |
| HttpOptions.Load | httpoptions.go:30-155 | loading succeeds iff the option decodes and, for a scheme, validates; the loaded module is the decoded one after provisioning (the provisioning at lines 30-37 and the scheme check at lines 148-155) |
| TlsTunnel.ParseLines | tls.go:140-200 | accepted iff every line is a known subdirective with its arity and no block; a rejection reports the first bad line |
| TlsTunnel.ParsedFields | tls.go:140-200 | in an accepted block the last `domain`, `metadata`, `cert`, `key` win; `allow`/`deny` arguments accumulate in order |
| TlsTunnel.Parse | tls.go:140-145 | an argument on the `tls` line is an argument error |
| TlsTunnel.Replace | tls.go:106-133 | metadata, domain, certificate and key paths and each CIDR are replaced, keeping list lengths and order |
| TlsTunnel.CheckTermination | tls.go:85-99 | a certificate without a key, or a key without a certificate, after trimming, is an error; with both, an unreadable file is an error |
| TlsTunnel.ProvisionOptsOrder | tls.go:68-104 | options come in the order domain, metadata, allow, deny, termination |
| TlsTunnel.ProvisionOptsPresence | tls.go:68-104 | domain and metadata appear iff not blank, CIDR lists iff non-empty, a termination option iff a certificate is named |
| TlsTunnel.ProvisionOptsTermination | tls.go:88-101 | a termination option carries the bytes of both named files |
| TlsTunnel.Provision | tls.go:56-66 | every option carries replaced values and the pairing check sees the replaced paths |
| TcpTunnel.ParseLines | tcp.go:118-154 | accepted iff every line is a known subdirective with its arity and no block; a rejection reports the first bad line |
| TcpTunnel.ParsedFields | tcp.go:118-154 | in an accepted block the last `metadata` and `remote_addr` win; `allow`/`deny` accumulate in order and a list stays nil when never named |
| TcpTunnel.Parse | tcp.go:118-123 | an argument on the `tcp` line is an argument error |
| TcpTunnel.Replace | tcp.go:68-101 | metadata and each CIDR are replaced with lengths kept; the remote address is untouched; both CIDR lists come out present, possibly empty |
| TcpTunnel.ProvisionOptsShape | tcp.go:50-66 | the remote-address option always comes first, even when empty; metadata appears iff non-empty, untrimmed; each CIDR list appears iff present |
| TcpTunnel.Provision | tcp.go:36-66 | after provisioning the options are exactly remote address, optional metadata, allow list, deny list |
| Oidc.ParseLines | oidc.go:80-148 | accepted iff every line is known, with its arity and no block; a rejection reports the first bad line |
| Oidc.ParsedFields | oidc.go:80-148 | in an accepted block the last issuer, client id and secret win; scopes, domains and e-mails accumulate in order |
| Oidc.Parse | oidc.go:80-83 | an argument on the opener is an argument error |
| Oidc.Replace | oidc.go:56-78 | issuer, id, secret and every list element are replaced, list lengths and order kept |
| Oidc.Provision | oidc.go:24-54 | a blank issuer, client id or client secret after replacement fails, checked in that order; otherwise one OIDC option carries the three replaced values and the sub-options |
| Oidc.ProvisionSubOpts | oidc.go:27-37 | sub-options come in the order e-mails, domains, scopes, each present iff its list is non-empty and carrying the whole replaced list |
| OAuth.ParseLines | oauth.go:83-143 | accepted iff every line is known, with its arity and no block; a rejection reports the first bad line |
| OAuth.ParsedFields | oauth.go:83-143 | in an accepted block the last provider wins; scopes, domains and e-mails accumulate in order |
| OAuth.Parse | oauth.go:83-86 | an argument on the opener is an argument error |
| OAuth.Replace | oauth.go:46-81 | the provider and every list element are replaced, list lengths and order kept |
| OAuth.Provision | oauth.go:22-44 | a blank provider after replacement fails; otherwise one OAuth option carries the replaced provider and the sub-options |
| OAuth.ProvisionSubOpts | oauth.go:25-35 | sub-options come in the order e-mails, domains, scopes, each present iff its list is non-empty |
| Webhook.ParseLines | webhook_verification.go:46-68 | accepted iff every line is `provider` or `secret` with one argument and no block; a rejection reports the first bad line |
| Webhook.ParsedFields | webhook_verification.go:46-68 | in an accepted block the last provider and the last secret win |
| Webhook.Parse | webhook_verification.go:47-49 | an argument on the opener is an argument error |
| Webhook.Provision | webhook_verification.go:19-44 | a blank provider fails first, then a blank secret; otherwise exactly one webhook option carries the replaced provider and secret |
| Webhook.ProviderAndSecret | webhook_verification.go:51-61 | a provider and a secret give the same configuration in either order, and provisioning it succeeds iff neither is blank after replacement |
| Labeled.ParseLabels | labeled.go:62-76 | a `labels` block is accepted iff every line is `label` with exactly two arguments; a later label overwrites an earlier one with the same name; every other name keeps its value |
| Labeled.ParsePlain | labeled.go:54-85 | several `labels` blocks yield exactly the labels their lines give, merged, the last value for a name winning |
| Labeled.OtherDirectiveRejected | labeled.go:55-79 | a directive other than `labels`, or an argument after `labels`, is an argument error |
| Labeled.Parse | labeled.go:54-58 | an argument on the `labeled` line is an argument error; no block gives no labels |
| Labeled.ProvisionExact | labeled.go:37-47 | one label option per label, carrying its name and value; the count equals the number of distinct names; it cannot fail |
| Session.ParseTunnel | ngrok.go:275-290 | a type no tunnel module has is an error naming it; a parsed tunnel has the type named on the line, `tcp` when none is named |
| Session.StoreTunnel | ngrok.go:292 | a parsed tunnel is stored as parsed iff it encodes as JSON; as written, one that does not encode is stored as no tunnel and the failure is dropped; reported, the failure is an encoding error naming the tunnel type |
| Session.StepModes | ngrok.go:286-292 | where reporting accepts a line, the code as written stores the same; where only the code as written accepts it, the line is a tunnel that does not encode |
| Session.ReportedRefinesSilent | ngrok.go:203-236 | a block accepted with the failure reported parses to the same settings as the code as written; a block only the code as written accepts is rejected with an encoding error |
| Session.ConfiguredTunnelKept | ngrok.go:286-292 | with the failure reported, an accepted block keeps its last `tunnel` line's tunnel exactly as parsed |
| Session.HttpWithToggleTParses | http.go:175-191 | `tunnel http { compression t }` parses to an `http` tunnel storing the literal `t`, which is not a JSON document |
| Session.SilentTcpFallback | ngrok.go:74-80 | as written, `ngrok { tunnel http { compression t } }` is accepted with no tunnel, even after a `tunnel tcp` line, and provisioning then loads the default TCP tunnel |
| Session.ReportedRejects | ngrok.go:286-292 | with the failure reported, the same block is rejected with an encoding error naming the `http` tunnel |
| Session.TunnelDefaultsToTcp | ngrok.go:276-283 | `tunnel` without a type parses exactly as `tunnel tcp`; arguments after the type go to that tunnel's opener and are rejected there |
| Session.Duration | ngrok.go:243-273 | a heartbeat needs exactly one argument that parses as a duration; a malformed duration is an error naming the directive and value |
| Session.ParseLines | ngrok.go:197-241 | the `ngrok` block is accepted iff every directive line is |
| Session.ParseLinesError | ngrok.go:203-236 | a rejected block reports its first rejected line's error; an unknown directive is an argument error |
| Session.ParsedSettings | ngrok.go:203-236 | every setting comes from the last line that sets it: metadata, region and server that line's argument, heartbeats its parsed duration, the token its single argument or the empty token, the tunnel that line's parse when it encodes and nil otherwise |
| Session.Parse | ngrok.go:197-201 | an argument on the `ngrok` line is an argument error; an empty block sets nothing |
| Session.AuthtokenLeftover | ngrok.go:206-209 | `authtoken t region eu` sets the empty token and the region `eu` |
| Session.LoadTunnel | ngrok.go:82-92 | the loaded tunnel has the configured type; TCP and labeled tunnels load without failing; a TLS or HTTP tunnel fails iff its own provisioning does |
| Session.DoReplace | ngrok.go:138-157 | the token, metadata, region and server are replaced strictly, in that order; the first failure is the error and names its field; on success the heartbeats and tunnel are unchanged |
| Session.Provision | ngrok.go:74-104 | without a configured tunnel a TCP tunnel with nothing set is loaded; a tunnel load failure is the error; the context replacer applies to the token before the strict pass |
| Session.Validate | ngrok.go:160-166 | validation fails iff no tunnel was loaded, with the missing-tunnel error |
| Session.ProvisionOptsOrder | ngrok.go:106-113 | the logger option comes first, then exactly one auth option: the token from the environment when the token is empty, the token otherwise; the options follow a fixed order |
| Session.ProvisionOptsPresence | ngrok.go:115-133 | metadata, region and server options appear iff non-empty, heartbeat options iff non-zero |

## Left out

- Caddy module registration, `CaddyModule`, the logger, and `WrapListener` with `ngrok.Listen` are left out. They are framework and network plumbing with no configuration logic.
- `ctx.LoadModule` is modelled only by its effect. The stored module is decoded, provisioned and validated, and decoding failures become `OptionDecode`. The JSON text Caddy writes and reads back for a tunnel is modelled only by whether it can be written: a parsed tunnel that encodes is stored as its record, and one that does not is stored as no tunnel (see Findings).
- JSON escaping is not modelled. The `quoteString` helper is not part of this model, so stored strings are taken to round-trip unchanged. JSON white space inside literals and the `null` forms are left out too.
- The placeholder replacer, `strconv.ParseFloat`, `caddy.ParseDuration` and `os.ReadFile` are not modelled. They are uninterpreted fields of `Env`, and durations are integers of nanoseconds.
- The order in which Go iterates over a map is not modelled. It appears as explicit order parameters constrained to be enumerations of the map's keys, so properties are stated for every admissible order.
- A later multi-argument `allow`/`deny` line in the `http` block is not concatenated. It is modelled only as making the stored array malformed. Inside an `ngrok` block such an `http` tunnel does not encode and is stored as no tunnel, so the default TCP tunnel is provisioned. Only an `http` module provisioned on its own reaches the option load, which then rejects the array.
- Error message texts are not modelled: errors are kinds with the directive or field they name.
- The outer `for d.Next()` loop over several segments of one dispenser is left out. Each parser receives one directive line.
- Behaviour that only the tests describe is left out: a top-level `label`, `mutual_tls_cas`, and oidc/oauth/webhook/header directives inside `http`.
- Session.LoadTunnel: an HTTP tunnel's options are stated through the HTTP tunnel's own `Provision` contract and not repeated here.
- Session.Encodes: TCP, TLS and labeled tunnels are taken to encode always, since they hold only strings; the string escaping of `json.Marshal` is not modelled.

## Findings

| source | as written | input that shows it | evidently intended | confidence | as-written member | corrected member |
|---|---|---|---|---|---|---|
| ngrok.go:292 | `JSONModuleObject` is called without a warnings list, so a parsed tunnel that `json.Marshal` rejects is stored as nil and the failure is dropped; `Provision` (ngrok.go:78-80) then loads the default TCP tunnel | `ngrok { tunnel http { compression t } }`; likewise `circuit_breaker .5`, or `allow a` followed by `allow b c` | the `tunnel` line is rejected with the encoding error | high; not executed | Session.SilentTcpFallback | Session.ReportedRejects |
