/**
 * `CapabilitiesLoader`: finds the capability file for a platform and an environment on the class
 * path, preferring JSON to YAML, and copies its top-level entries into the capabilities.
 *
 * The class path is a set of resource paths; parsing is an oracle from a resource path to the
 * top-level map of the document, `None` when the parser (or, for YAML, the file lookup) fails.
 */
module CapabilitiesLoader {
  import opened Results
  import opened Text
  import opened JavaValues

  const Directory: string := "config/capabilities/"

  /** The capabilities set on a `DesiredCapabilities`, by name. */
  type Capabilities = map<string, Value>

  /** A parser's view of one resource: the document's top-level map, or a failure to read it. */
  type Reader = string -> Option<map<string, Value>>

  datatype LoadError =
    | NotFound(platform: string, environment: string)
    | JsonUnreadable(path: string)
    | YamlFailure(path: string)
  {
    /** The runtime exception's message; a JSON parser failure escapes with the parser's own message. */
    function Message(): (msg: string)
      requires !this.JsonUnreadable?
    {
      match this
      case NotFound(p, e) => "Neither JSON nor YAML file found for platform: " + p + ", environment: " + e
      case YamlFailure(path) => "Failed to load capabilities from YAML file: " + path
    }
  }

  /** "config/capabilities/<platform>-<environment>", both lower-cased. */
  function BaseName(platform: string, environment: string): (name: string)
    ensures IsPrefix(Directory, name)
    ensures name[|Directory|..] == Lower(platform) + "-" + Lower(environment)
  {
    assert (Directory + Lower(platform) + "-" + Lower(environment))[|Directory|..]
        == Lower(platform) + "-" + Lower(environment);
    Directory + Lower(platform) + "-" + Lower(environment)
  }

  /** A candidate capability file: the base name followed by an extension. */
  function CandidatePath(platform: string, environment: string, extension: string): (path: string)
    ensures IsPrefix(BaseName(platform, environment), path)
    ensures path[|BaseName(platform, environment)|..] == extension
  {
    BaseName(platform, environment) + extension
  }

  function JsonPath(platform: string, environment: string): string {
    CandidatePath(platform, environment, ".json")
  }

  function YamlPath(platform: string, environment: string): string {
    CandidatePath(platform, environment, ".yaml")
  }

  /** The two candidates are different resources. */
  lemma CandidatesDiffer(platform: string, environment: string)
    ensures JsonPath(platform, environment) != YamlPath(platform, environment)
  {
    var n := |BaseName(platform, environment)|;
    assert JsonPath(platform, environment)[n + 1] == 'j';
    assert YamlPath(platform, environment)[n + 1] == 'y';
  }

  /** `loadFromJson`: every top-level entry, its value as parsed; a parser failure escapes. */
  function LoadFromJson(doc: Option<map<string, Value>>, path: string): (r: Result<Capabilities, LoadError>)
    ensures r.Err? <==> doc.None?
    ensures r.Err? ==> r.error == JsonUnreadable(path)
    ensures r.Ok? ==> r.value.Keys == doc.value.Keys
    ensures r.Ok? ==> forall k :: k in r.value ==> r.value[k] == doc.value[k]
  {
    match doc
    case None => Err(JsonUnreadable(path))
    case Some(entries) => Ok(map k | k in entries :: entries[k])
  }

  /** A YAML value as stored: a `String` as it is, anything else as its `toString`; `null` has none. */
  function Coerce(v: Value): (r: Option<Value>)
    ensures r.None? <==> v.VNull?
    ensures r.Some? ==> r.value.VString?
    ensures v.VString? ==> r == Some(v)
    ensures !v.VString? && !v.VNull? ==> r == Some(VString(ToString(v)))
    ensures v.VBool? ==> r == Some(VString(if v.b then "true" else "false"))
    ensures v.VInt? ==> r == Some(VString(IntToDecimal(v.i)))
  {
    match v
    case VNull => None
    case VString(_) => Some(v)
    case _ => Some(VString(ToString(v)))
  }

  predicate HasNull(entries: map<string, Value>) {
    exists k :: k in entries && entries[k].VNull?
  }

  /**
   * `loadFromYaml`: each top-level entry coerced by `Coerce`. Any failure (resource lookup, parsing,
   * a `null` value whose `toString` throws) becomes one error naming the YAML path.
   */
  function LoadFromYaml(doc: Option<map<string, Value>>, path: string): (r: Result<Capabilities, LoadError>)
    ensures r.Err? <==> doc.None? || HasNull(doc.value)
    ensures r.Err? ==> r.error == YamlFailure(path)
    ensures r.Ok? ==> r.value.Keys == doc.value.Keys
    ensures r.Ok? ==> forall k :: k in r.value ==> Some(r.value[k]) == Coerce(doc.value[k])
  {
    match doc
    case None => Err(YamlFailure(path))
    case Some(entries) =>
      if HasNull(entries) then Err(YamlFailure(path))
      else Ok(map k | k in entries :: Coerce(entries[k]).value)
  }

  /** Every capability loaded from YAML is a string, and strings come through unchanged. */
  lemma YamlValuesAreStrings(doc: Option<map<string, Value>>, path: string)
    requires LoadFromYaml(doc, path).Ok?
    ensures forall k :: k in LoadFromYaml(doc, path).value ==> LoadFromYaml(doc, path).value[k].VString?
    ensures forall k :: k in doc.value && doc.value[k].VString? ==> LoadFromYaml(doc, path).value[k] == doc.value[k]
    ensures forall k :: k in doc.value && doc.value[k].VInt? ==>
      LoadFromYaml(doc, path).value[k] == VString(IntToDecimal(doc.value[k].i))
    ensures forall k :: k in doc.value && doc.value[k].VBool? ==>
      LoadFromYaml(doc, path).value[k] == VString(if doc.value[k].b then "true" else "false")
    ensures forall k :: k in doc.value && !doc.value[k].VString? ==>
      LoadFromYaml(doc, path).value[k] == VString(ToString(doc.value[k]))
  {
    var caps := LoadFromYaml(doc, path).value;
    forall k | k in caps ensures caps[k].VString? {
      assert Some(caps[k]) == Coerce(doc.value[k]);
    }
  }

  /** Loading the coerced capabilities as YAML again changes nothing. */
  lemma YamlCoercionIdempotent(doc: Option<map<string, Value>>, path: string)
    requires LoadFromYaml(doc, path).Ok?
    ensures LoadFromYaml(Some(LoadFromYaml(doc, path).value), path) == LoadFromYaml(doc, path)
  {
    var caps := LoadFromYaml(doc, path).value;
    YamlValuesAreStrings(doc, path);
    assert !HasNull(caps);
    var again := LoadFromYaml(Some(caps), path).value;
    forall k | k in caps ensures again[k] == caps[k] {
      assert Some(again[k]) == Coerce(caps[k]);
    }
    assert again == caps;
  }

  /** JSON keeps what YAML would coerce: the two loaders agree exactly on documents of strings. */
  lemma LoadersAgreeOnStrings(entries: map<string, Value>, jsonPath: string, yamlPath: string)
    requires forall k :: k in entries ==> entries[k].VString?
    ensures LoadFromJson(Some(entries), jsonPath) == LoadFromYaml(Some(entries), yamlPath)
  {
    assert !HasNull(entries);
    var j := LoadFromJson(Some(entries), jsonPath).value;
    var y := LoadFromYaml(Some(entries), yamlPath).value;
    forall k | k in entries ensures j[k] == y[k] {
      assert Some(y[k]) == Coerce(entries[k]);
    }
    assert j == y;
  }

  /**
   * `loadCapabilities`: the JSON candidate if it is on the class path, else the YAML candidate,
   * else an error naming the platform and environment as given.
   */
  function LoadCapabilities(platform: string, environment: string, present: set<string>,
                            readJson: Reader, readYaml: Reader): (r: Result<Capabilities, LoadError>)
    ensures var json := JsonPath(platform, environment);
      json in present ==> r == LoadFromJson(readJson(json), json)
    ensures var yaml := YamlPath(platform, environment);
      JsonPath(platform, environment) !in present && yaml in present ==> r == LoadFromYaml(readYaml(yaml), yaml)
    ensures r == Err(NotFound(platform, environment)) <==>
      JsonPath(platform, environment) !in present && YamlPath(platform, environment) !in present
  {
    var json := JsonPath(platform, environment);
    var yaml := YamlPath(platform, environment);
    if json in present then LoadFromJson(readJson(json), json)
    else if yaml in present then LoadFromYaml(readYaml(yaml), yaml)
    else Err(NotFound(platform, environment))
  }

  /** With the JSON candidate present, the YAML candidate is never consulted: its reader cannot matter. */
  lemma JsonShadowsYaml(platform: string, environment: string, present: set<string>,
                        readJson: Reader, readYaml1: Reader, readYaml2: Reader)
    requires JsonPath(platform, environment) in present
    ensures LoadCapabilities(platform, environment, present, readJson, readYaml1)
         == LoadCapabilities(platform, environment, present, readJson, readYaml2)
  {
  }

  /** The "not found" message names both the platform and the environment. */
  lemma NotFoundMessageNamesBoth(platform: string, environment: string)
    ensures Contains(NotFound(platform, environment).Message(), platform)
    ensures Contains(NotFound(platform, environment).Message(), environment)
  {
    var pre := "Neither JSON nor YAML file found for platform: ";
    var mid := ", environment: ";
    ContainsPart(pre, platform, mid + environment);
    assert pre + platform + (mid + environment) == pre + platform + mid + environment;
    ContainsPart(pre + platform + mid, environment, "");
    assert pre + platform + mid + environment + "" == pre + platform + mid + environment;
  }

  /** A YAML failure's message names the YAML path. */
  lemma YamlFailureNamesPath(path: string)
    ensures Contains(YamlFailure(path).Message(), path)
  {
    ContainsPart("Failed to load capabilities from YAML file: ", path, "");
    assert "Failed to load capabilities from YAML file: " + path + "" == "Failed to load capabilities from YAML file: " + path;
  }

  /**
   * Lookup ignores letter case: once a candidate is found, asking with lower-cased names loads the
   * same capabilities. Only the "not found" message keeps the spelling it was given.
   */
  lemma LookupIgnoresCase(platform: string, environment: string, present: set<string>,
                          readJson: Reader, readYaml: Reader)
    requires JsonPath(platform, environment) in present || YamlPath(platform, environment) in present
    ensures LoadCapabilities(platform, environment, present, readJson, readYaml)
         == LoadCapabilities(Lower(platform), Lower(environment), present, readJson, readYaml)
  {
    LowerIdempotent(platform);
    LowerIdempotent(environment);
    assert BaseName(platform, environment) == BaseName(Lower(platform), Lower(environment));
  }
}
