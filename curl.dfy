/** The request gate of the CORS proxy (backend/curl.php): which requests
    are refused with 400 or 403 and which are forwarded. `parse_url`
    results are taken as given records; the forwarding itself (curl and the
    header mirroring) is not modelled. */
module Curl {
  import opened Wrappers

  /** The parts of a `parse_url` result the gate reads. `parse_url` gives a
      port as an integer; a failed parse and an absent header both read as
      the record with every part missing. */
  datatype ParsedUrl = ParsedUrl(scheme: Option<string>, host: Option<string>, port: Option<int>, path: Option<string>)

  function NoParts(): ParsedUrl {
    ParsedUrl(None, None, None, None)
  }

  /** A port as PHP holds it after the defaults are filled in: the
      integer `parse_url` found, or the default string. `===` tells the two
      apart. */
  datatype PortValue = IntPort(n: int) | StrPort(s: string)

  /** `$server_host` / `$server_referer` after the defaults. */
  datatype Origin = Origin(scheme: string, host: Option<string>, port: PortValue)

  /** `err_4xx(400, ...)`, `err_4xx(403, ...)`, or going on to fetch. */
  datatype Verdict = BadRequest | Forbidden | Forward

  /** The default port of a scheme, as a string. */
  function DefaultPort(scheme: string): (p: PortValue)
    ensures p.StrPort?
    ensures scheme == "https" <==> p == StrPort("443")
    ensures scheme != "https" <==> p == StrPort("80")
  {
    StrPort(if scheme == "https" then "443" else "80")
  }

  /** The server's own origin: scheme from the HTTPS flags when missing,
      host from the path when missing, port from the scheme when missing. */
  function HostOrigin(host: ParsedUrl, httpsSet: bool): (o: Origin)
    ensures o.scheme == host.scheme.GetOr(if httpsSet then "https" else "http")
    ensures o.host == if host.host.Some? then host.host else host.path
    ensures host.port.Some? ==> o.port == IntPort(host.port.value)
    ensures host.port.None? ==> o.port == DefaultPort(o.scheme)
  {
    var scheme := host.scheme.GetOr(if httpsSet then "https" else "http");
    Origin(scheme, if host.host.Some? then host.host else host.path,
      if host.port.Some? then IntPort(host.port.value) else DefaultPort(scheme))
  }

  /** The referer's origin: scheme `http` and the scheme's port when
      missing; the host stays missing when it is. */
  function RefererOrigin(referer: ParsedUrl): (o: Origin)
    ensures o.scheme == referer.scheme.GetOr("http") && o.host == referer.host
    ensures referer.port.Some? ==> o.port == IntPort(referer.port.value)
    ensures referer.port.None? ==> o.port == DefaultPort(o.scheme)
  {
    var scheme := referer.scheme.GetOr("http");
    Origin(scheme, referer.host, if referer.port.Some? then IntPort(referer.port.value) else DefaultPort(scheme))
  }

  /** `$scheme_check && $host_check && $port_check`. */
  predicate SameOrigin(host: Origin, referer: Origin) {
    host.scheme == referer.scheme && referer.host.Some? && host.host == referer.host && host.port == referer.port
  }

  /** The verdict: no `url`, or one whose scheme is not exactly `https`,
      is a bad request; otherwise the request goes through only from the
      server's own origin. */
  function Gate(url: Option<ParsedUrl>, host: ParsedUrl, referer: ParsedUrl, httpsSet: bool): (v: Verdict)
    ensures v == BadRequest <==> url.None? || url.value.scheme != Some("https")
    ensures v == Forward <==> (url.Some? && url.value.scheme == Some("https")
      && SameOrigin(HostOrigin(host, httpsSet), RefererOrigin(referer)))
  {
    if url.None? || url.value.scheme != Some("https") then BadRequest
    else if SameOrigin(HostOrigin(host, httpsSet), RefererOrigin(referer)) then Forward
    else Forbidden
  }

  /** The script up to the fetch, filling the two records one part at a
      time and stopping at the first refusal. `url` is `parse_url` of the
      sanitised parameter, `None` when the parameter is missing; `host`
      and `referer` are `parse_url` of the headers (`NoParts()` when a
      header is missing); `httpsSet` says whether `HTTPS` or
      `HTTP_X_FORWARDED_SSL` is set. */
  method CheckRequest(url: Option<ParsedUrl>, host: ParsedUrl, referer: ParsedUrl, httpsSet: bool)
    returns (verdict: Verdict)
    ensures verdict == Gate(url, host, referer, httpsSet)
  {
    if url.None? {
      return BadRequest;
    }
    if url.value.scheme.None? || url.value.scheme.value != "https" {
      return BadRequest;
    }
    var hostScheme := host.scheme;
    if hostScheme.None? {
      hostScheme := Some(if httpsSet then "https" else "http");
    }
    var refererScheme := referer.scheme;
    if refererScheme.None? {
      refererScheme := Some("http");
    }
    var hostHost := host.host;
    if hostHost.None? {
      hostHost := host.path;
    }
    var hostPort: PortValue;
    if host.port.None? {
      hostPort := if hostScheme.value == "https" then StrPort("443") else StrPort("80");
    } else {
      hostPort := IntPort(host.port.value);
    }
    var refererPort: PortValue;
    if referer.port.None? {
      refererPort := if refererScheme.value == "https" then StrPort("443") else StrPort("80");
    } else {
      refererPort := IntPort(referer.port.value);
    }
    var schemeCheck := hostScheme.value == refererScheme.value;
    var hostCheck := referer.host.Some? && hostHost == referer.host;
    var portCheck := hostPort == refererPort;
    if !(schemeCheck && hostCheck && portCheck) {
      return Forbidden;
    }
    verdict := Forward;
  }

  /** The 400 checks come first: a request without `url`, or with a
      non-https one, is a bad request whatever its headers. */
  lemma BadRequestBeforeOrigin(url: Option<ParsedUrl>, host: ParsedUrl, referer: ParsedUrl, httpsSet: bool)
    requires url.None? || url.value.scheme != Some("https")
    ensures Gate(url, host, referer, httpsSet) == BadRequest
  {
  }

  /** A referer without a host is refused, whatever else matches. */
  lemma RefererWithoutHostForbidden(url: ParsedUrl, host: ParsedUrl, referer: ParsedUrl, httpsSet: bool)
    requires url.scheme == Some("https") && referer.host.None?
    ensures Gate(Some(url), host, referer, httpsSet) == Forbidden
  {
  }

  /** The usual same-origin request: a `Host` header that parses to a bare
      path, behind HTTPS, and an https referer naming that host, neither
      with a port, is forwarded. */
  lemma SameHostForwarded(url: ParsedUrl, name: string, refererPath: Option<string>)
    requires url.scheme == Some("https")
    ensures Gate(Some(url), ParsedUrl(None, None, None, Some(name)),
                 ParsedUrl(Some("https"), Some(name), None, refererPath), true) == Forward
  {
  }

  /** Without the HTTPS flags the server's scheme defaults to http, so the
      same request from an https page is refused. */
  lemma PlainServerRefusesHttpsReferer(url: ParsedUrl, name: string)
    requires url.scheme == Some("https")
    ensures Gate(Some(url), ParsedUrl(None, None, None, Some(name)),
                 ParsedUrl(Some("https"), Some(name), None, None), false) == Forbidden
  {
  }

  /** Ports compare with `===`: an explicit port never equals a filled-in
      default, so a host naming port 443 refuses a referer that leaves it
      out, while two explicit equal ports pass. */
  lemma ExplicitPortNeverMatchesDefault(url: ParsedUrl, name: string, port: int)
    requires url.scheme == Some("https")
    ensures Gate(Some(url), ParsedUrl(Some("https"), Some(name), Some(443), None),
                 ParsedUrl(Some("https"), Some(name), None, None), false) == Forbidden
    ensures Gate(Some(url), ParsedUrl(Some("https"), Some(name), Some(port), None),
                 ParsedUrl(Some("https"), Some(name), Some(port), None), false) == Forward
  {
  }
}
