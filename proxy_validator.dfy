/** `ProxyValidator` (core/ProxyValidator.js): four static helpers over an
    optional proxy descriptor. A descriptor that is missing or not enabled
    means "no proxy" to all four. */
module ProxyValidator {
  import opened Wrappers
  import opened JsString

  /** A port as the settings may give it: absent, a JSON number (an
      integer) or a string. */
  datatype Port = NoPort | PortNumber(n: int) | PortText(s: string)

  /** A proxy descriptor. The host may be missing (`None`), which a
      template literal renders as "undefined"; an empty `user` or `pass`
      stands for the field being absent or empty, which the helpers treat
      alike (both are falsy). */
  datatype ProxyConfig = ProxyConfig(enabled: bool, host: Option<string>, port: Port, user: string, pass: string)

  /** The `{ isValid, message }` object `validate` returns. */
  datatype Validation = Validation(isValid: bool, message: string)

  /** The connection object `createProxyObject` builds; `None` for a field
      the object does not have. */
  datatype ProxyObject = ProxyObject(host: Option<string>, port: Port, user: Option<string>, pass: Option<string>)

  const DISABLED: string := "Прокси отключен"
  const NO_HOST: string := "Хост прокси не указан"
  const NO_PORT: string := "Порт прокси не указан"
  const BAD_PORT: string := "Некорректный порт прокси"
  const BLANK_HOST: string := "Хост прокси не может быть пустым"
  const CONFIGURED: string := "Прокси настроен: "

  /** `!proxyConfig || !proxyConfig.enabled` is false. */
  predicate Enabled(cfg: Option<ProxyConfig>) {
    cfg.Some? && cfg.value.enabled
  }

  /** JavaScript truthiness of the host: missing and '' are falsy. */
  predicate HostGiven(h: Option<string>) {
    h.Some? && h.value != ""
  }

  /** The host as a template literal renders it. */
  function HostString(h: Option<string>): string {
    if h.Some? then h.value else "undefined"
  }

  /** JavaScript truthiness of the port: 0, '' and a missing port are falsy. */
  predicate PortGiven(p: Port) {
    match p
    case NoPort => false
    case PortNumber(n) => n != 0
    case PortText(s) => s != ""
  }

  /** The port as a template literal renders it. */
  function PortString(p: Port): string {
    match p
    case NoPort => "undefined"
    case PortNumber(n) => IntToString(n)
    case PortText(s) => s
  }

  /** `parseInt(proxyConfig.port)`: a number is first turned into its
      decimal string; `None` stands for `NaN`. */
  function ParsePort(p: Port): (r: Option<int>)
  {
    match p
    case NoPort => None
    case PortNumber(n) => ParseInt(IntToString(n))
    case PortText(s) => ParseInt(s)
  }

  /** The parsed port is a number between 1 and 65535. */
  predicate PortInRange(p: Port) {
    var v := ParsePort(p);
    v.Some? && 1 <= v.value <= 65535
  }

  /** `host:port` as the helpers render it. */
  function HostPort(c: ProxyConfig): string {
    HostString(c.host) + ":" + PortString(c.port)
  }

  /** A numeric port parses to itself. */
  lemma PortNumberParses(n: int)
    ensures ParsePort(PortNumber(n)) == Some(n)
  {
    IntStringRoundTrip(n);
  }

  /** A falsy port never passes the range check, so the "not specified"
      check only decides which message is reported. */
  lemma FalsyPortOutOfRange(p: Port)
    requires !PortGiven(p)
    ensures !PortInRange(p)
  {
    match p
    case NoPort =>
    case PortNumber(n) => PortNumberParses(n);
    case PortText(s) =>
      assert TrimStart(s) == [];
  }

  /** `validate`: the first failing check, in the order missing host,
      missing or falsy port, unparsable or out-of-range port, blank host,
      decides the message; an enabled descriptor is valid exactly when its
      host is not blank and its port parses into [1, 65535]. */
  function Validate(cfg: Option<ProxyConfig>): (r: Validation)
    ensures !Enabled(cfg) ==> r == Validation(true, DISABLED)
    ensures Enabled(cfg) ==> (r.isValid <==> HostGiven(cfg.value.host) && Trim(cfg.value.host.value) != ""
                                             && PortInRange(cfg.value.port))
    ensures Enabled(cfg) && !HostGiven(cfg.value.host) ==> r == Validation(false, NO_HOST)
    ensures Enabled(cfg) && HostGiven(cfg.value.host) && !PortGiven(cfg.value.port) ==> r == Validation(false, NO_PORT)
    ensures Enabled(cfg) && HostGiven(cfg.value.host) && PortGiven(cfg.value.port) && !PortInRange(cfg.value.port)
            ==> r == Validation(false, BAD_PORT)
    ensures Enabled(cfg) && HostGiven(cfg.value.host) && Trim(cfg.value.host.value) == "" && PortInRange(cfg.value.port)
            ==> r == Validation(false, BLANK_HOST)
    ensures r.isValid && Enabled(cfg) ==> r.message == CONFIGURED + HostPort(cfg.value)
  {
    if !Enabled(cfg) then Validation(true, DISABLED)
    else
      var c := cfg.value;
      if !HostGiven(c.host) then Validation(false, NO_HOST)
      else if !PortGiven(c.port) then
        FalsyPortOutOfRange(c.port);
        Validation(false, NO_PORT)
      else if !PortInRange(c.port) then Validation(false, BAD_PORT)
      else if Trim(c.host.value) == "" then Validation(false, BLANK_HOST)
      else Validation(true, CONFIGURED + HostPort(c))
  }

  /** `formatProxyInfo`: `host:port`, preceded by `user:***@` exactly when
      a user is set. */
  function FormatProxyInfo(cfg: Option<ProxyConfig>): (r: string)
    ensures !Enabled(cfg) ==> r == DISABLED
    ensures Enabled(cfg) && cfg.value.user == "" ==> r == HostPort(cfg.value)
    ensures Enabled(cfg) && cfg.value.user != "" ==> r == cfg.value.user + ":***@" + HostPort(cfg.value)
  {
    if !Enabled(cfg) then DISABLED
    else
      var c := cfg.value;
      var info := HostPort(c);
      if c.user != "" then c.user + ":***@" + info else info
  }

  /** The display string is the same whatever the password: it cannot
      show it. */
  lemma FormatHidesPassword(c: ProxyConfig, otherPass: string)
    ensures FormatProxyInfo(Some(c)) == FormatProxyInfo(Some(c.(pass := otherPass)))
  {
  }

  /** `needsAuthentication`: an enabled descriptor with both a user and a
      password. */
  function NeedsAuthentication(cfg: Option<ProxyConfig>): (r: bool)
    ensures r <==> Enabled(cfg) && cfg.value.user != "" && cfg.value.pass != ""
  {
    if !Enabled(cfg) then false else cfg.value.user != "" && cfg.value.pass != ""
  }

  /** `createProxyObject`: `null` when there is no proxy; otherwise host and
      port copied as they are, with `user` and `pass` present only when
      given. */
  function CreateProxyObject(cfg: Option<ProxyConfig>): (r: Option<ProxyObject>)
    ensures r.Some? <==> Enabled(cfg)
    ensures r.Some? ==> r.value.host == cfg.value.host && r.value.port == cfg.value.port
    ensures r.Some? ==> (r.value.user.Some? <==> cfg.value.user != "")
    ensures r.Some? ==> (r.value.pass.Some? <==> cfg.value.pass != "")
    ensures r.Some? && r.value.user.Some? ==> r.value.user.value == cfg.value.user
    ensures r.Some? && r.value.pass.Some? ==> r.value.pass.value == cfg.value.pass
  {
    if !Enabled(cfg) then None
    else
      var c := cfg.value;
      var user := if c.user != "" then Some(c.user) else None;
      var pass := if c.pass != "" then Some(c.pass) else None;
      Some(ProxyObject(c.host, c.port, user, pass))
  }

  /** Authentication is needed exactly when the built object carries both
      credentials. */
  lemma AuthMatchesObject(cfg: Option<ProxyConfig>)
    ensures NeedsAuthentication(cfg) <==>
            (CreateProxyObject(cfg).Some? && CreateProxyObject(cfg).value.user.Some?
             && CreateProxyObject(cfg).value.pass.Some?)
  {
  }

  /** A descriptor that validates yields a connection object whose host is
      not blank and whose port parses into [1, 65535]. */
  lemma ValidObject(cfg: Option<ProxyConfig>)
    requires Enabled(cfg) && Validate(cfg).isValid
    ensures CreateProxyObject(cfg).Some?
    ensures HostGiven(CreateProxyObject(cfg).value.host) && Trim(CreateProxyObject(cfg).value.host.value) != ""
    ensures PortInRange(CreateProxyObject(cfg).value.port)
  {
  }
}
