/**
 * The connection settings of the DICOM query client: four fields with
 * defaults, read from prefixed environment variables, and converted to and
 * from a dictionary. The dataclass does not check field types, so a field
 * holds whichever value it was given.
 */
module DicomConfig {
  import opened Wrappers
  import opened PyDict
  import opened Text

  /** A field value: a string or an integer. */
  datatype Field = FStr(s: string) | FInt(i: int)

  datatype DicomServerConfig = DicomServerConfig(host: Field, port: Field, aeTitle: Field, timeout: Field)

  const DefaultHost := FStr("127.0.0.1")
  const DefaultPort := FInt(11112)
  const DefaultAeTitle := FStr("MCPSCU")
  const DefaultTimeout := FInt(30)

  /** `DicomServerConfig()`. */
  const Defaults := DicomServerConfig(DefaultHost, DefaultPort, DefaultAeTitle, DefaultTimeout)

  const FieldNames: seq<string> := ["host", "port", "ae_title", "timeout"]

  // ---------------------------------------------------------------------
  // from_env
  // ---------------------------------------------------------------------

  /** A string field: the variable's value when it is set. */
  function EnvString(env: map<string, string>, name: string, default: Field): (f: Field)
    ensures name in env ==> f == FStr(env[name])
    ensures name !in env ==> f == default
  {
    if name in env then FStr(env[name]) else default
  }

  /** An integer field: `int()` of the variable's value when it is set and
      parses; a value that raises ValueError keeps the default. */
  function EnvInt(env: map<string, string>, name: string, default: Field): (f: Field)
    ensures name in env && ParseInt(env[name]).Some? ==> f == FInt(ParseInt(env[name]).value)
    ensures name !in env || ParseInt(env[name]).None? ==> f == default
  {
    if name in env then
      match ParseInt(env[name])
      case Some(n) => FInt(n)
      case None => default
    else default
  }

  /** The configuration `from_env` returns for an environment. */
  function EnvConfig(env: map<string, string>, prefix: string): DicomServerConfig {
    DicomServerConfig(
      EnvString(env, prefix + "HOST", DefaultHost),
      EnvInt(env, prefix + "PORT", DefaultPort),
      EnvString(env, prefix + "AE_TITLE", DefaultAeTitle),
      EnvInt(env, prefix + "TIMEOUT", DefaultTimeout))
  }

  /** `from_env`: start from the defaults and override one field at a time. */
  method FromEnv(env: map<string, string>, prefix: string) returns (config: DicomServerConfig)
    ensures config == EnvConfig(env, prefix)
  {
    config := Defaults;
    if prefix + "HOST" in env {
      config := config.(host := FStr(env[prefix + "HOST"]));
    }
    if prefix + "PORT" in env {
      var parsed := ParseInt(env[prefix + "PORT"]);
      if parsed.Some? {
        config := config.(port := FInt(parsed.value));
      }
    }
    if prefix + "AE_TITLE" in env {
      config := config.(aeTitle := FStr(env[prefix + "AE_TITLE"]));
    }
    if prefix + "TIMEOUT" in env {
      var parsed := ParseInt(env[prefix + "TIMEOUT"]);
      if parsed.Some? {
        config := config.(timeout := FInt(parsed.value));
      }
    }
  }

  /** Only the four prefixed variables are read: environments that agree on
      them give the same configuration. */
  lemma EnvReadsOnlyPrefixed(env1: map<string, string>, env2: map<string, string>, prefix: string)
    requires forall suffix :: suffix in ["HOST", "PORT", "AE_TITLE", "TIMEOUT"] ==>
      ((prefix + suffix in env1) <==> (prefix + suffix in env2))
      && (prefix + suffix in env1 ==> env1[prefix + suffix] == env2[prefix + suffix])
    ensures EnvConfig(env1, prefix) == EnvConfig(env2, prefix)
  {
    assert "HOST" in ["HOST", "PORT", "AE_TITLE", "TIMEOUT"];
    assert "PORT" in ["HOST", "PORT", "AE_TITLE", "TIMEOUT"];
    assert "AE_TITLE" in ["HOST", "PORT", "AE_TITLE", "TIMEOUT"];
    assert "TIMEOUT" in ["HOST", "PORT", "AE_TITLE", "TIMEOUT"];
  }

  /** With none of the prefixed variables set, the defaults come back. */
  lemma EnvDefaults(env: map<string, string>, prefix: string)
    requires prefix + "HOST" !in env && prefix + "PORT" !in env
    requires prefix + "AE_TITLE" !in env && prefix + "TIMEOUT" !in env
    ensures EnvConfig(env, prefix) == Defaults
  {
  }

  /** A port or timeout written as `str(n)` is read back as `n`; a value that
      does not parse leaves the default in place. */
  lemma EnvIntegers(env: map<string, string>, prefix: string, n: int)
    ensures prefix + "PORT" in env && env[prefix + "PORT"] == IntToString(n) ==> EnvConfig(env, prefix).port == FInt(n)
    ensures prefix + "TIMEOUT" in env && env[prefix + "TIMEOUT"] == IntToString(n) ==> EnvConfig(env, prefix).timeout == FInt(n)
    ensures prefix + "PORT" in env && ParseInt(env[prefix + "PORT"]).None? ==> EnvConfig(env, prefix).port == DefaultPort
    ensures prefix + "TIMEOUT" in env && ParseInt(env[prefix + "TIMEOUT"]).None? ==> EnvConfig(env, prefix).timeout == DefaultTimeout
  {
    ParseIntToString(n);
  }

  // ---------------------------------------------------------------------
  // to_dict / from_dict
  // ---------------------------------------------------------------------

  /** `asdict(self)`: the four fields in declaration order. */
  function ToDict(c: DicomServerConfig): (d: Dict<string, Field>)
    ensures Keys(d) == FieldNames
  {
    [("host", c.host), ("port", c.port), ("ae_title", c.aeTitle), ("timeout", c.timeout)]
  }

  /** The first key that is not a field name, if any. */
  function UnexpectedKey(data: Dict<string, Field>): (r: Option<string>)
    ensures r.Some? ==> r.value in Keys(data) && r.value !in FieldNames
    ensures r.None? ==> forall k :: k in Keys(data) ==> k in FieldNames
  {
    if data == [] then None
    else if data[0].0 !in FieldNames then Some(data[0].0)
    else
      var rest := UnexpectedKey(data[1..]);
      assert forall k :: k in Keys(data[1..]) ==> k in Keys(data) by {
        forall k | k in Keys(data[1..]) ensures k in Keys(data) {
          var i :| 0 <= i < |Keys(data[1..])| && Keys(data[1..])[i] == k;
          assert Keys(data)[i + 1] == k;
        }
      }
      if rest.None? then
        assert forall k :: k in Keys(data) ==> k == data[0].0 || k in Keys(data[1..]) by {
          forall k | k in Keys(data) ensures k == data[0].0 || k in Keys(data[1..]) {
            var i :| 0 <= i < |Keys(data)| && Keys(data)[i] == k;
            if i > 0 {
              assert Keys(data[1..])[i - 1] == k;
            }
          }
        }
        None
      else rest
  }

  /** `cls(**data)`: a missing key keeps its default, an unknown key raises
      TypeError (the offending key is returned). */
  function FromDict(data: Dict<string, Field>): (r: Result<DicomServerConfig, string>)
    ensures r.Err? <==> exists k :: k in Keys(data) && k !in FieldNames
    ensures r.Ok? ==> r.value.host == Get(data, "host").GetOr(DefaultHost)
                      && r.value.port == Get(data, "port").GetOr(DefaultPort)
                      && r.value.aeTitle == Get(data, "ae_title").GetOr(DefaultAeTitle)
                      && r.value.timeout == Get(data, "timeout").GetOr(DefaultTimeout)
  {
    match UnexpectedKey(data)
    case Some(k) => Err(k)
    case None =>
      Ok(DicomServerConfig(
        Get(data, "host").GetOr(DefaultHost),
        Get(data, "port").GetOr(DefaultPort),
        Get(data, "ae_title").GetOr(DefaultAeTitle),
        Get(data, "timeout").GetOr(DefaultTimeout)))
  }

  /** `from_dict(to_dict(c)) == c`. */
  lemma FromDictToDict(c: DicomServerConfig)
    ensures FromDict(ToDict(c)) == Ok(c)
  {
    var d := ToDict(c);
    GetFirst(d, 0, "host");
    GetFirst(d, 1, "port");
    GetFirst(d, 2, "ae_title");
    GetFirst(d, 3, "timeout");
  }

  /** The other direction: every value a dictionary supplies is what
      `to_dict` of the loaded configuration reports under that key. */
  lemma ToDictFromDict(data: Dict<string, Field>, k: string)
    requires FromDict(data).Ok? && k in Keys(data)
    ensures Get(ToDict(FromDict(data).value), k) == Get(data, k)
  {
    assert k in FieldNames;
  }
}
