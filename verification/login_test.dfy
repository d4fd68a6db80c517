/**
 * The configuration helpers of `LoginTest` and how `setUp` settles the Appium endpoint: values
 * from the server section of the configuration with defaults, then the `APPIUM_HOST` and
 * `APPIUM_PORT` environment overrides, then the remote URL.
 */
module LoginTest {
  import opened Results
  import opened Text
  import opened JavaValues

  const DefaultHost: string := "127.0.0.1"
  const DefaultPort: int := 4723
  const HostVariable: string := "APPIUM_HOST"
  const PortVariable: string := "APPIUM_PORT"

  /** A configuration section; a missing key reads as `null`, as does a key mapped to `VNull`. */
  type Section = map<string, Value>

  predicate IsNull(section: Section, key: string) {
    key !in section || section[key].VNull?
  }

  /** `getStringOrDefault`: the default for `null`, else the value's `toString`. */
  function GetStringOrDefault(section: Section, key: string, default: string): (r: string)
    ensures IsNull(section, key) ==> r == default
    ensures !IsNull(section, key) && section[key].VString? ==> r == section[key].s
    ensures !IsNull(section, key) ==> r == ToString(section[key])
  {
    if IsNull(section, key) then default else ToString(section[key])
  }

  /** `getIntOrDefault`: the default for `null` or for text `Integer.parseInt` rejects, else the parsed `int`. */
  function GetIntOrDefault(section: Section, key: string, default: int): (r: int)
    ensures IsNull(section, key) ==> r == default
    ensures !IsNull(section, key) && ParseInt(ToString(section[key])).None? ==> r == default
    ensures !IsNull(section, key) && ParseInt(ToString(section[key])).Some? ==> r == ParseInt(ToString(section[key])).value
    ensures IsInt32(default) ==> IsInt32(r)
  {
    if IsNull(section, key) then default
    else
      match ParseInt(ToString(section[key]))
      case Some(i) => i
      case None => default
  }

  /** An `int` stored either as a number or as its decimal text reads back as itself. */
  lemma IntSettingRoundTrip(section: Section, key: string, i: int, default: int)
    requires IsInt32(i)
    ensures GetIntOrDefault(section[key := VInt(i)], key, default) == i
    ensures GetIntOrDefault(section[key := VString(IntToDecimal(i))], key, default) == i
  {
    ParseIntOfDecimal(i);
  }

  /** A number outside the `int` range (a `Long` in the parsed document) falls back to the default. */
  lemma WideSettingFallsBack(section: Section, key: string, i: int, default: int)
    requires !IsInt32(i)
    ensures GetIntOrDefault(section[key := VInt(i)], key, default) == default
  {
    ParseIntRejectsWide(i);
  }

  /**
   * Both helpers read the same text: a present setting is read by `getIntOrDefault` through
   * `Integer.parseInt` of exactly the string `getStringOrDefault` returns for it.
   */
  lemma IntSettingReadsStringSetting(section: Section, key: string, intDefault: int, stringDefault: string)
    ensures IsNull(section, key) ==> GetIntOrDefault(section, key, intDefault) == intDefault
    ensures !IsNull(section, key) ==>
      GetIntOrDefault(section, key, intDefault) == ParseInt(GetStringOrDefault(section, key, stringDefault)).ValueOr(intDefault)
  {
  }

  /** A string stored under the key reads back as itself; removing the key brings back the default. */
  lemma StringSettingRoundTrip(section: Section, key: string, s: string, default: string)
    ensures GetStringOrDefault(section[key := VString(s)], key, default) == s
    ensures GetStringOrDefault(section - {key}, key, default) == default
    ensures GetStringOrDefault(section[key := VNull], key, default) == default
  {
  }

  /** The host and port the driver connects to. */
  datatype Endpoint = Endpoint(host: string, port: int)

  /**
   * The endpoint `setUp` settles on: the configured host and port or their defaults; then a set
   * `APPIUM_HOST` replaces the host, even when empty, and a set `APPIUM_PORT` replaces the port
   * through `Integer.parseInt`, whose `NumberFormatException` escapes.
   */
  function ResolveEndpoint(server: Section, env: map<string, string>): (r: Result<Endpoint, string>)
    ensures r.Err? <==> PortVariable in env && ParseInt(env[PortVariable]).None?
    ensures r.Ok? ==> r.value.host == if HostVariable in env then env[HostVariable] else GetStringOrDefault(server, "host", DefaultHost)
    ensures r.Ok? ==> r.value.port == if PortVariable in env then ParseInt(env[PortVariable]).value else GetIntOrDefault(server, "port", DefaultPort)
    ensures r.Ok? ==> IsInt32(r.value.port)
  {
    var host := GetStringOrDefault(server, "host", DefaultHost);
    var port := GetIntOrDefault(server, "port", DefaultPort);
    var host' := if HostVariable in env then env[HostVariable] else host;
    if PortVariable in env then
      match ParseInt(env[PortVariable])
      case None => Err("NumberFormatException")
      case Some(p) => Ok(Endpoint(host', p))
    else Ok(Endpoint(host', port))
  }

  /** `String.format("http://%s:%d", host, port)`. */
  function RemoteUrl(e: Endpoint): (url: string)
    ensures IsPrefix("http://" + e.host + ":", url)
    ensures url[|"http://" + e.host + ":"|..] == IntToDecimal(e.port)
  {
    "http://" + e.host + ":" + IntToDecimal(e.port)
  }

  /** With nothing configured and no overrides the driver goes to the local default server. */
  lemma DefaultEndpoint()
    ensures ResolveEndpoint(map[], map[]) == Ok(Endpoint("127.0.0.1", 4723))
    ensures RemoteUrl(Endpoint("127.0.0.1", 4723)) == "http://127.0.0.1:4723"
  {
    assert GetStringOrDefault(map[], "host", DefaultHost) == DefaultHost;
    assert GetIntOrDefault(map[], "port", DefaultPort) == DefaultPort;
    DefaultPortSpelling();
    assert RemoteUrl(Endpoint("127.0.0.1", 4723)) == "http://" + "127.0.0.1" + ":" + "4723";
  }

  lemma DefaultPortSpelling()
    ensures IntToDecimal(4723) == "4723"
  {
    assert NatToDecimal(4) == "4";
    assert 47 / 10 == 4 && 47 % 10 == 7;
    assert NatToDecimal(47) == "47";
    assert 472 / 10 == 47 && 472 % 10 == 2;
    assert NatToDecimal(472) == "472";
    assert 4723 / 10 == 472 && 4723 % 10 == 3;
    assert NatToDecimal(4723) == "4723";
  }

  /** The environment wins over the configuration, even with an empty host. */
  lemma EnvironmentOverridesConfig(server: Section, env: map<string, string>, port: int)
    requires IsInt32(port)
    ensures ResolveEndpoint(server, env[HostVariable := ""][PortVariable := IntToDecimal(port)])
         == Ok(Endpoint("", port))
  {
    ParseIntOfDecimal(port);
  }

  /** The URL ends in the port's decimal digits, which read back as the port. */
  lemma UrlPortRoundTrip(e: Endpoint)
    requires IsInt32(e.port)
    ensures var prefix := "http://" + e.host + ":";
      ParseInt(RemoteUrl(e)[|prefix|..]) == Some(e.port)
  {
    var prefix := "http://" + e.host + ":";
    assert RemoteUrl(e)[|prefix|..] == IntToDecimal(e.port);
    ParseIntOfDecimal(e.port);
  }
}
