/**
 * The string part of `is_reachable`: an API host such as
 * "https://10.0.0.1:6443" loses every "//" and is split on ':'.
 * Three parts give scheme, host and the port text; two parts give scheme
 * and host, with the port defaulted from the scheme; any other count is
 * the ValueError of a tuple unpacking, which escapes `is_reachable`.
 */
module Endpoint {
  import opened Wrappers
  import opened Text

  /** The port handed to the connection attempt: the third part as text, or a default number. */
  datatype Port = Verbatim(text: string) | Number(n: nat)

  datatype Endpoint = Endpoint(scheme: string, host: string, port: Option<Port>)

  /** Python's ValueError from unpacking `parts` values into two names. */
  datatype ParseError = UnpackError(parts: nat)

  /** The port used when the host string names none: 80 for http, 443 for https, none otherwise. */
  function DefaultPort(scheme: string): Option<Port>
  {
    if scheme == "http" then Some(Number(80))
    else if scheme == "https" then Some(Number(443))
    else None
  }

  /**
   * Parsing succeeds exactly when the host string holds one or two ':'
   * (slashes never matter); otherwise the error reports how many parts the
   * second unpacking found.
   */
  function ParseEndpoint(apiHost: string): (r: Result<Endpoint, ParseError>)
    ensures r.Success? <==> Count(apiHost, ':') == 1 || Count(apiHost, ':') == 2
    ensures r.Failure? ==> r.error.parts == Count(apiHost, ':') + 1
    ensures Count(apiHost, ':') == 2 ==>
      r.Success? && r.value.port.Some? && r.value.port.value.Verbatim? &&
      ':' !in r.value.scheme && ':' !in r.value.host && ':' !in r.value.port.value.text &&
      StripDoubleSlashes(apiHost) == r.value.scheme + ":" + r.value.host + ":" + r.value.port.value.text
    ensures Count(apiHost, ':') == 1 ==>
      r.Success? && r.value.port == DefaultPort(r.value.scheme) &&
      ':' !in r.value.scheme && ':' !in r.value.host &&
      StripDoubleSlashes(apiHost) == r.value.scheme + ":" + r.value.host
  {
    ColonsSurviveStripping(apiHost);
    var parts := Split(StripDoubleSlashes(apiHost), ':');
    if |parts| == 3 then
      assert parts[0] in parts && parts[1] in parts && parts[2] in parts;
      JoinThree(parts, ':');
      Success(Endpoint(parts[0], parts[1], Some(Verbatim(parts[2]))))
    else if |parts| == 2 then
      assert parts[0] in parts && parts[1] in parts;
      JoinTwo(parts, ':');
      Success(Endpoint(parts[0], parts[1], DefaultPort(parts[0])))
    else Failure(UnpackError(|parts|))
  }

  /**
   * `is_reachable`: parse the host string, then make one connection
   * attempt. The attempt is the oracle `connects`; every exception it may
   * raise (refused, timed out, no port) is already folded into its `false`.
   * A parse error is not: it escapes as an error, never as `false`.
   */
  function IsReachable(apiHost: string, connects: (string, Option<Port>) -> bool): (r: Result<bool, ParseError>)
    ensures r.Failure? <==> Count(apiHost, ':') != 1 && Count(apiHost, ':') != 2
    ensures r.Success? ==>
      ParseEndpoint(apiHost).Success? &&
      r.value == connects(ParseEndpoint(apiHost).value.host, ParseEndpoint(apiHost).value.port)
  {
    var endpoint :- ParseEndpoint(apiHost);
    Success(connects(endpoint.host, endpoint.port))
  }

  lemma StripSchemeSeparator(scheme: string, rest: string)
    requires '/' !in scheme && '/' !in rest
    ensures StripDoubleSlashes(scheme + "://" + rest) == scheme + ":" + rest
  {
    assert scheme + "://" + rest == (scheme + ":") + ("//" + rest);
    StripSlashFreePrefix(scheme + ":", "//" + rest);
    assert ("//" + rest)[2..] == rest;
    StripSlashFreePrefix(rest, []);
    assert rest + [] == rest;
  }

  /**
   * "scheme://host:port" yields the three pieces, the port kept as text
   * whether or not it is a number.
   */
  lemma ParseWithPort(scheme: string, host: string, port: string)
    requires ':' !in scheme && ':' !in host && ':' !in port
    requires '/' !in scheme && '/' !in host && '/' !in port
    ensures ParseEndpoint(scheme + "://" + host + ":" + port) == Success(Endpoint(scheme, host, Some(Verbatim(port))))
  {
    assert scheme + "://" + host + ":" + port == scheme + "://" + (host + ":" + port);
    StripSchemeSeparator(scheme, host + ":" + port);
    assert [scheme, host, port][1..] == [host, port] && [host, port][1..] == [port];
    assert Join([host, port], ':') == host + ":" + port;
    assert Join([scheme, host, port], ':') == scheme + ":" + (host + ":" + port);
    SplitOfJoin([scheme, host, port], ':');
  }

  /** "scheme://host" yields scheme and host, with port 80 for http, 443 for https and none otherwise. */
  lemma ParseWithoutPort(scheme: string, host: string)
    requires ':' !in scheme && ':' !in host
    requires '/' !in scheme && '/' !in host
    ensures ParseEndpoint(scheme + "://" + host)
         == Success(Endpoint(scheme, host,
                             if scheme == "http" then Some(Number(80))
                             else if scheme == "https" then Some(Number(443))
                             else None))
  {
    StripSchemeSeparator(scheme, host);
    assert [scheme, host][1..] == [host];
    assert Join([scheme, host], ':') == scheme + ":" + host;
    SplitOfJoin([scheme, host], ':');
  }
}
