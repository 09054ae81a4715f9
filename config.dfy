/**
  Per-host configuration: the defaults and the assertions of `check`, which
  decide whether a configuration entry is accepted, and the keyword arguments
  `checker` hands to `asyncssh.connect`.
*/
module Config {
  import opened Wrappers
  import opened FileMatch

  /** A YAML value where validation looks at its type or its truthiness. */
  datatype Scalar =
    | Null
    | Boolean(b: bool)
    | Integer(i: int)
    | Text(s: string)
    | Other(truthy: bool)   // a float, a list or a mapping: only its truthiness matters

  /** Python truthiness. */
  predicate Truthy(v: Scalar)
  {
    match v
    case Null => false
    case Boolean(b) => b
    case Integer(i) => i != 0
    case Text(s) => s != []
    case Other(t) => t
  }

  /** `isinstance(v, int)`; a bool is an int in Python. */
  predicate IsInt(v: Scalar)
  {
    v.Integer? || v.Boolean?
  }

  function AsInt(v: Scalar): int
    requires IsInt(v)
  {
    if v.Integer? then v.i else if v.b then 1 else 0
  }

  /** Truthiness of an optional string setting (absent or null is None). */
  predicate Given(o: Option<string>)
  {
    o.Some? && o.value != []
  }

  function OrElse<T>(o: Option<T>, default: T): T
  {
    if o.Some? then o.value else default
  }

  datatype CheckerKind = Noop | Attributes | PutGetDel

  /**
    `globals()['{}_checker'.format(callback)]`: the only module-level names
    ending in `_checker` are the three checkers, so only these three strings
    name one.
  */
  function CheckerByName(callback: Scalar): (r: Option<CheckerKind>)
    ensures r.Some? <==> callback in {Text("noop"), Text("attributes"), Text("put_get_del")}
  {
    if callback == Text("noop") then Some(Noop)
    else if callback == Text("attributes") then Some(Attributes)
    else if callback == Text("put_get_del") then Some(PutGetDel)
    else None
  }

  /**
    One entry of the `checks` list. None is a key that is absent; for the keys
    read without a default it also stands for an explicit null.
  */
  datatype Entry = Entry(
    host: Option<string>,
    port: Option<Scalar>,
    username: Option<string>,
    password: Option<string>,
    clientKeyFile: Option<string>,
    folders: Option<seq<string>>,
    patterns: Option<seq<string>>,
    timeout: Option<int>,
    checker: Option<Scalar>,
    validateKnownHosts: Option<bool>,
    smartPatternDate: Option<bool>,
    basePatternDate: Option<string>,
    smartFolderDate: Option<bool>,
    baseFolderDate: Option<string>,
    checkFileName: Option<string>,
    checkFileContents: Option<string>)

  /** An accepted entry with its defaults applied. */
  datatype HostSettings = HostSettings(
    host: string,
    port: int,
    username: string,
    password: Option<string>,
    clientKeyFile: Option<string>,
    folders: seq<string>,
    patterns: seq<string>,
    timeout: int,
    validateKnownHosts: bool,
    smartPatternDate: bool,
    basePatternDate: string,
    smartFolderDate: bool,
    baseFolderDate: string,
    checkFileName: Option<string>,
    checkFileContents: Option<string>,
    checker: CheckerKind)
  {
    /** The matcher callback `check` builds for this host. */
    function MatchCallback(): Matcher
    {
      Matcher(smartPatternDate, basePatternDate, patterns)
    }
  }

  /** The `AssertionError`s of `check`, in the order they are tested. */
  datatype ConfigError = HostNotSpecified | InvalidPort | BothCredentials | NoCredentials | InvalidChecker

  const DefaultPort: int := 22
  const DefaultUsername: string := "sftp"
  const DefaultFolders: seq<string> := ["www"]
  const DefaultPatterns: seq<string> := ["*"]
  const DefaultTimeout: int := 900
  const DefaultBaseDate: string := "today"
  const DefaultChecker: Scalar := Text("noop")

  /** `check(check_def.get('checker', 'noop'), **check_def)` up to scheduling the host's loop. */
  function Check(e: Entry): (r: Result<HostSettings, ConfigError>)
    ensures r.Ok? ==> Given(r.value.password) != Given(r.value.clientKeyFile)
  {
    var port := OrElse(e.port, Integer(DefaultPort));
    var kind := CheckerByName(OrElse(e.checker, DefaultChecker));
    if !Given(e.host) then Err(HostNotSpecified)
    else if !IsInt(port) then Err(InvalidPort)
    else if Given(e.password) && Given(e.clientKeyFile) then Err(BothCredentials)
    else if !Given(e.password) && !Given(e.clientKeyFile) then Err(NoCredentials)
    else if kind.None? then Err(InvalidChecker)
    else
      Ok(HostSettings(
        e.host.value, AsInt(port), OrElse(e.username, DefaultUsername),
        e.password, e.clientKeyFile,
        OrElse(e.folders, DefaultFolders), OrElse(e.patterns, DefaultPatterns),
        OrElse(e.timeout, DefaultTimeout), OrElse(e.validateKnownHosts, false),
        OrElse(e.smartPatternDate, false), OrElse(e.basePatternDate, DefaultBaseDate),
        OrElse(e.smartFolderDate, false), OrElse(e.baseFolderDate, DefaultBaseDate),
        e.checkFileName, e.checkFileContents, kind.value))
  }

  /**
    An entry is accepted iff its host is given, its port (22 when absent) is an
    int, exactly one of password and client key file is given, and its checker
    (noop when absent) names one of the three checkers.
  */
  lemma CheckAcceptsIff(e: Entry)
    ensures Check(e).Ok? <==>
      && Given(e.host)
      && (e.port.None? || IsInt(e.port.value))
      && Given(e.password) != Given(e.clientKeyFile)
      && (e.checker.None? || e.checker.value in {Text("noop"), Text("attributes"), Text("put_get_del")})
  {
  }

  /** A rejected entry is reported by the first assertion it fails. */
  lemma CheckReportsFirstFailure(e: Entry)
    ensures Check(e) == Err(HostNotSpecified) <==> !Given(e.host)
    ensures Check(e) == Err(InvalidPort) <==> Given(e.host) && e.port.Some? && !IsInt(e.port.value)
    ensures Check(e) == Err(BothCredentials) <==>
      Given(e.host) && (e.port.None? || IsInt(e.port.value)) && Given(e.password) && Given(e.clientKeyFile)
    ensures Check(e) == Err(NoCredentials) <==>
      Given(e.host) && (e.port.None? || IsInt(e.port.value)) && !Given(e.password) && !Given(e.clientKeyFile)
    ensures Check(e) == Err(InvalidChecker) <==>
      && Given(e.host) && (e.port.None? || IsInt(e.port.value)) && Given(e.password) != Given(e.clientKeyFile)
      && e.checker.Some? && e.checker.value !in {Text("noop"), Text("attributes"), Text("put_get_del")}
  {
  }

  /** The defaults `check` applies to absent keys. */
  lemma CheckAppliesDefaults(e: Entry)
    requires Check(e).Ok?
    ensures var h := Check(e).value;
      && (e.port.None? ==> h.port == 22)
      && (e.username.None? ==> h.username == "sftp")
      && (e.folders.None? ==> h.folders == ["www"])
      && (e.patterns.None? ==> h.patterns == ["*"])
      && (e.timeout.None? ==> h.timeout == 900)
      && (e.checker.None? ==> h.checker == Noop)
      && (e.validateKnownHosts.None? ==> !h.validateKnownHosts)
      && (e.basePatternDate.None? ==> h.basePatternDate == "today")
      && (e.baseFolderDate.None? ==> h.baseFolderDate == "today")
  {
  }

  /** A keyword argument value of `asyncssh.connect`. */
  datatype KwArg = Str(s: string) | Num(n: int) | KeyFiles(files: seq<string>) | TrustingClientFactory

  /**
    The `kw` dict of `checker`: host, port and username always; the password
    only if truthy; `client_keys` only if a key file is given; the trusting
    client factory only when known-hosts validation is off.
  */
  method ConnectKwargs(h: HostSettings) returns (kw: map<string, KwArg>)
    ensures kw.Keys == {"host", "port", "username"}
                       + (if Given(h.password) then {"password"} else {})
                       + (if Given(h.clientKeyFile) then {"client_keys"} else {})
                       + (if h.validateKnownHosts then {} else {"client_factory"})
    ensures kw["host"] == Str(h.host) && kw["port"] == Num(h.port) && kw["username"] == Str(h.username)
    ensures "password" in kw ==> kw["password"] == Str(h.password.value)
    ensures "client_keys" in kw ==> kw["client_keys"] == KeyFiles([h.clientKeyFile.value])
    ensures "client_factory" in kw ==> kw["client_factory"] == TrustingClientFactory
    ensures Given(h.password) != Given(h.clientKeyFile) ==> ("password" in kw <==> "client_keys" !in kw)
  {
    kw := map["host" := Str(h.host), "port" := Num(h.port), "username" := Str(h.username)];
    if Given(h.password) {
      kw := kw["password" := Str(h.password.value)];
    }
    if Given(h.clientKeyFile) {
      kw := kw["client_keys" := KeyFiles([h.clientKeyFile.value])];
    }
    if !h.validateKnownHosts {
      kw := kw["client_factory" := TrustingClientFactory];
    }
  }
}
