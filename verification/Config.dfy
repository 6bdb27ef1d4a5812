/**
 Configuration: defaults, file, environment and flags layered by precedence, and the saves
 that change single settings in the file so that they survive a restart.
 */
module Config {
  import opened GoTime
  import opened Wrappers
  import opened Alerts

  // ---------------------------------------------------------------------------------------
  // Durations and rules as text
  // ---------------------------------------------------------------------------------------

  /** Go's duration rendering and parsing. */
  datatype Codec = Codec(show: Duration -> string, parse: string -> Option<Duration>)

  ghost predicate Faithful(codec: Codec)
  {
    codec.parse("") == None && forall d: Duration :: codec.parse(codec.show(d)) == Some(d)
  }

  datatype RuleJson = RuleJson(
    name: string,
    metric: Metric,
    comparator: Comparator,
    threshold: real,
    forText: string,
    repeatText: string)

  datatype ServiceRuleJson = ServiceRuleJson(name: string, serviceName: string, notifyOnRecovery: bool,
          repeatText: string)

  function EncodeRepeat(codec: Codec, repeatInterval: Duration): string
  {
    if repeatInterval > 0 then codec.show(repeatInterval) else ""
  }

  /** An absent interval is zero, a negative one is refused. */
  function DecodeRepeat(codec: Codec, text: string): Option<Duration>
  {
    if text == "" then Some(0)
    else
      match codec.parse(text)
      case None => None
      case Some(d) => if d < 0 then None else Some(d)
  }

  function EncodeRule(codec: Codec, r: Rule): RuleJson
  {
    RuleJson(r.name, r.metric, r.comparator, r.threshold,
             codec.show(r.forDuration), EncodeRepeat(codec, r.repeatInterval))
  }

  function DecodeRule(codec: Codec, j: RuleJson): (r: Option<Rule>)
    ensures r.Some? ==> r.value.repeatInterval >= 0
  {
    match (codec.parse(j.forText), DecodeRepeat(codec, j.repeatText))
    case (Some(f), Some(repeat)) => Some(Rule(j.name, j.metric, j.comparator, j.threshold, f, repeat))
    case (_, _) => None
  }

  function EncodeServiceRule(codec: Codec, r: ServiceRule): ServiceRuleJson
  {
    ServiceRuleJson(r.name, r.serviceName, r.notifyOnRecovery, EncodeRepeat(codec, r.repeatInterval))
  }

  function DecodeServiceRule(codec: Codec, j: ServiceRuleJson): (r: Option<ServiceRule>)
    ensures r.Some? ==> r.value.repeatInterval >= 0
  {
    match DecodeRepeat(codec, j.repeatText)
    case None => None
    case Some(repeat) => Some(ServiceRule(j.name, j.serviceName, j.notifyOnRecovery, repeat))
  }

  /** What a repeat interval's text says: nothing is zero, and a duration must not be negative. */
  ghost predicate RepeatIs(codec: Codec, text: string, d: int)
  {
    if text == "" then d == 0 else d >= 0 && codec.parse(text).Some? && codec.parse(text).value == d
  }

  /** The rule that a JSON rule describes. */
  ghost predicate Describes(codec: Codec, j: RuleJson, r: Rule)
  {
    && r.name == j.name && r.metric == j.metric && r.comparator == j.comparator && r.threshold == j.threshold
    && codec.parse(j.forText) == Some(r.forDuration)
    && RepeatIs(codec, j.repeatText, r.repeatInterval)
  }

  ghost predicate DescribesService(codec: Codec, j: ServiceRuleJson, r: ServiceRule)
  {
    && r.name == j.name && r.serviceName == j.serviceName && r.notifyOnRecovery == j.notifyOnRecovery
    && RepeatIs(codec, j.repeatText, r.repeatInterval)
  }

  /** A duration that a rule needs is missing or wrong. */
  ghost predicate BadRepeat(codec: Codec, text: string)
  {
    text != "" && (codec.parse(text) == None || codec.parse(text).value < 0)
  }

  ghost predicate BadRule(codec: Codec, j: RuleJson)
  {
    codec.parse(j.forText) == None || BadRepeat(codec, j.repeatText)
  }

  /** Decoding gives the rule described, and fails exactly on a bad duration. */
  lemma DecodeRuleIff(codec: Codec, j: RuleJson)
    ensures forall r :: DecodeRule(codec, j) == Some(r) <==> Describes(codec, j, r)
    ensures DecodeRule(codec, j) == None <==> BadRule(codec, j)
  {
  }

  lemma DecodeServiceRuleIff(codec: Codec, j: ServiceRuleJson)
    ensures forall r :: DecodeServiceRule(codec, j) == Some(r) <==> DescribesService(codec, j, r)
    ensures DecodeServiceRule(codec, j) == None <==> BadRepeat(codec, j.repeatText)
  {
  }

  /** A rule survives its own encoding exactly when its repeat interval is not negative, which
      holds of every rule that was ever decoded. */
  lemma RuleRoundTrip(codec: Codec, r: Rule)
    requires Faithful(codec)
    ensures DecodeRule(codec, EncodeRule(codec, r)) == Some(r) <==> r.repeatInterval >= 0
  {
  }

  lemma ServiceRuleRoundTrip(codec: Codec, r: ServiceRule)
    requires Faithful(codec)
    ensures DecodeServiceRule(codec, EncodeServiceRule(codec, r)) == Some(r) <==> r.repeatInterval >= 0
  {
  }

  /** Decoding a list fails when any of its rules does. */
  function DecodeRules(codec: Codec, js: seq<RuleJson>): (r: Option<seq<Rule>>)
    ensures r.None? <==> exists i :: 0 <= i < |js| && DecodeRule(codec, js[i]) == None
    ensures r.Some? ==> |r.value| == |js|
    ensures r.Some? ==> forall i :: 0 <= i < |js| ==> DecodeRule(codec, js[i]) == Some(r.value[i])
  {
    if js == [] then Some([])
    else
      assert forall i :: 0 <= i < |js| - 1 ==> js[1..][i] == js[i + 1];
      match (DecodeRule(codec, js[0]), DecodeRules(codec, js[1..]))
      case (Some(rule), Some(rest)) => Some([rule] + rest)
      case (_, _) => None
  }

  function DecodeServiceRules(codec: Codec, js: seq<ServiceRuleJson>): (r: Option<seq<ServiceRule>>)
    ensures r.None? <==> exists i :: 0 <= i < |js| && DecodeServiceRule(codec, js[i]) == None
    ensures r.Some? ==> |r.value| == |js|
    ensures r.Some? ==> forall i :: 0 <= i < |js| ==> DecodeServiceRule(codec, js[i]) == Some(r.value[i])
  {
    if js == [] then Some([])
    else
      assert forall i :: 0 <= i < |js| - 1 ==> js[1..][i] == js[i + 1];
      match (DecodeServiceRule(codec, js[0]), DecodeServiceRules(codec, js[1..]))
      case (Some(rule), Some(rest)) => Some([rule] + rest)
      case (_, _) => None
  }

  function EncodeRules(codec: Codec, rules: seq<Rule>): seq<RuleJson>
  {
    seq(|rules|, (i: nat) requires i < |rules| => EncodeRule(codec, rules[i]))
  }

  function EncodeServiceRules(codec: Codec, rules: seq<ServiceRule>): seq<ServiceRuleJson>
  {
    seq(|rules|, (i: nat) requires i < |rules| => EncodeServiceRule(codec, rules[i]))
  }

  ghost predicate Repeatable(rules: seq<Rule>, serviceRules: seq<ServiceRule>)
  {
    && (forall r :: r in rules ==> r.repeatInterval >= 0)
    && (forall r :: r in serviceRules ==> r.repeatInterval >= 0)
  }

  lemma RulesRoundTrip(codec: Codec, rules: seq<Rule>)
    requires Faithful(codec)
    ensures DecodeRules(codec, EncodeRules(codec, rules)) == Some(rules)
            <==> forall r :: r in rules ==> r.repeatInterval >= 0
  {
    var encoded := EncodeRules(codec, rules);
    forall i | 0 <= i < |rules|
      ensures DecodeRule(codec, encoded[i]) == Some(rules[i]) <==> rules[i].repeatInterval >= 0
      ensures rules[i] in rules
    {
      RuleRoundTrip(codec, rules[i]);
    }
    if forall r :: r in rules ==> r.repeatInterval >= 0 {
      assert DecodeRules(codec, encoded).Some? && DecodeRules(codec, encoded).value == rules;
    }
  }

  lemma ServiceRulesRoundTrip(codec: Codec, rules: seq<ServiceRule>)
    requires Faithful(codec)
    ensures DecodeServiceRules(codec, EncodeServiceRules(codec, rules)) == Some(rules)
            <==> forall r :: r in rules ==> r.repeatInterval >= 0
  {
    var encoded := EncodeServiceRules(codec, rules);
    forall i | 0 <= i < |rules|
      ensures DecodeServiceRule(codec, encoded[i]) == Some(rules[i]) <==> rules[i].repeatInterval >= 0
      ensures rules[i] in rules
    {
      ServiceRuleRoundTrip(codec, rules[i]);
    }
    if forall r :: r in rules ==> r.repeatInterval >= 0 {
      assert DecodeServiceRules(codec, encoded).Some? && DecodeServiceRules(codec, encoded).value == rules;
    }
  }

  // ---------------------------------------------------------------------------------------
  // The file
  // ---------------------------------------------------------------------------------------

  datatype JsonValue =
    | JNull
    | JString(text: string)
    | JRules(rules: seq<RuleJson>)
    | JServiceRules(serviceRules: seq<ServiceRuleJson>)
    | JOther(id: int)

  /** The keys this build knows, and any other a file may hold. */
  datatype Key =
    | ListenAddr
    | DBPath
    | PollInterval
    | PairingToken
    | PushRelayToken
    | PushRelayURL
    | ServerName
    | RulesKey
    | ServiceRulesKey
    | Unknown(name: string)

  /** `Malformed` stands for a file that cannot be read or holds neither a JSON object nor `null`. */
  datatype File = Missing | Malformed | Empty | NullDocument | Parsed(keys: map<Key, JsonValue>)

  datatype Extension = JsonExtension | NoExtension | TomlExtension | OtherExtension

  datatype Path = NoPath | Path(extension: Extension)

  datatype FileConfig = FileConfig(
    listenAddr: string,
    dbPath: string,
    pollInterval: Duration,
    pairingToken: string,
    pushRelayToken: string,
    pushRelayURL: string,
    serverName: string,
    rules: Option<seq<Rule>>,
    serviceRules: Option<seq<ServiceRule>>)

  datatype LoadError = Unreadable | BadJson | BadDuration | UnsupportedExtension | NotPositive | EmptySetting

  function Value(keys: map<Key, JsonValue>, key: Key): JsonValue
  {
    if key in keys then keys[key] else JNull
  }

  function Text(keys: map<Key, JsonValue>, key: Key): Option<string>
  {
    match Value(keys, key)
    case JNull => Some("")
    case JString(text) => Some(text)
    case _ => None
  }

  /** The decoded list, `Some(None)` for an absent one, `None` for a type or content error. */
  function RulesIn(codec: Codec, keys: map<Key, JsonValue>): Option<Option<seq<Rule>>>
  {
    match Value(keys, RulesKey)
    case JNull => Some(None)
    case JRules(js) =>
      var rules := DecodeRules(codec, js);
      if rules.None? then None else Some(rules)
    case _ => None
  }

  function ServiceRulesIn(codec: Codec, keys: map<Key, JsonValue>): Option<Option<seq<ServiceRule>>>
  {
    match Value(keys, ServiceRulesKey)
    case JNull => Some(None)
    case JServiceRules(js) =>
      var rules := DecodeServiceRules(codec, js);
      if rules.None? then None else Some(rules)
    case _ => None
  }

  datatype Texts = Texts(
    listenAddr: string,
    dbPath: string,
    pollInterval: string,
    pairingToken: string,
    pushRelayToken: string,
    pushRelayURL: string,
    serverName: string)

  /** The text settings, unless one of them is of another JSON type. */
  function ReadTexts(keys: map<Key, JsonValue>): Option<Texts>
  {
    var addr, db, poll := Text(keys, ListenAddr), Text(keys, DBPath), Text(keys, PollInterval);
    var token, relay := Text(keys, PairingToken), Text(keys, PushRelayToken);
    var url, name := Text(keys, PushRelayURL), Text(keys, ServerName);
    if addr.None? || db.None? || poll.None? || token.None? || relay.None? || url.None? || name.None? then None
    else Some(Texts(addr.value, db.value, poll.value, token.value, relay.value, url.value, name.value))
  }

  function DecodeKeys(codec: Codec, keys: map<Key, JsonValue>): Result<FileConfig, LoadError>
  {
    match (ReadTexts(keys), RulesIn(codec, keys), ServiceRulesIn(codec, keys))
    case (Some(t), Some(rules), Some(serviceRules)) =>
      var interval := if t.pollInterval == "" then Some(0) else codec.parse(t.pollInterval);
      (match interval
       case None => Err(BadDuration)
       case Some(d) =>
         Ok(FileConfig(t.listenAddr, t.dbPath, d, t.pairingToken, t.pushRelayToken, t.pushRelayURL, t.serverName,
                       rules, serviceRules)))
    case (_, _, _) => Err(BadJson)
  }

  function LoadFile(codec: Codec, extension: Extension, file: File): Result<FileConfig, LoadError>
  {
    if file == Missing then Err(Unreadable)
    else if extension == TomlExtension || extension == OtherExtension then Err(UnsupportedExtension)
    else
      match file
      case Parsed(keys) => DecodeKeys(codec, keys)
      case NullDocument => DecodeKeys(codec, map[])
      case _ => Err(BadJson)
  }

  // ---------------------------------------------------------------------------------------
  // Layering
  // ---------------------------------------------------------------------------------------

  const DEFAULT_LISTEN_ADDR := "127.0.0.1:8443"
  const DEFAULT_DB_PATH := "gateshell-agent.db"
  const DEFAULT_SERVER_NAME := "gateshell-agent"
  const DEFAULT_POLL_INTERVAL: Duration := 5 * MINUTE

  datatype Flags = Flags(
    configFile: Path,
    listenAddr: Option<string>,
    dbPath: Option<string>,
    pollInterval: Option<Duration>,
    pairingToken: Option<string>,
    pushRelayToken: Option<string>,
    pushRelayURL: Option<string>,
    serverName: Option<string>)

  function Defaults(hostname: string): FileConfig
  {
    FileConfig(DEFAULT_LISTEN_ADDR, DEFAULT_DB_PATH, DEFAULT_POLL_INTERVAL, "", "", "",
               if hostname == "" then DEFAULT_SERVER_NAME else hostname, None, None)
  }

  function Or(text: string, fallback: string): string
  {
    if text != "" then text else fallback
  }

  function MergeNonZero(base: FileConfig, over: FileConfig): FileConfig
  {
    FileConfig(
      Or(over.listenAddr, base.listenAddr),
      Or(over.dbPath, base.dbPath),
      if over.pollInterval != 0 then over.pollInterval else base.pollInterval,
      Or(over.pairingToken, base.pairingToken),
      Or(over.pushRelayToken, base.pushRelayToken),
      Or(over.pushRelayURL, base.pushRelayURL),
      Or(over.serverName, base.serverName),
      if over.rules.Some? then over.rules else base.rules,
      if over.serviceRules.Some? then over.serviceRules else base.serviceRules)
  }

  /** The environment variables read, empty when unset. */
  datatype Environment = Environment(
    listenAddr: string,
    dbPath: string,
    pollInterval: string,
    pairingToken: string,
    pushRelayToken: string,
    pushRelayURL: string,
    serverName: string)

  function EnvInterval(codec: Codec, env: Environment): Option<Duration>
  {
    if env.pollInterval == "" then None else codec.parse(env.pollInterval)
  }

  function ApplyEnv(codec: Codec, cfg: FileConfig, env: Environment): FileConfig
  {
    cfg.(listenAddr := Or(env.listenAddr, cfg.listenAddr),
         dbPath := Or(env.dbPath, cfg.dbPath),
         pollInterval := (match EnvInterval(codec, env) case None => cfg.pollInterval case Some(d) => d),
         pairingToken := Or(env.pairingToken, cfg.pairingToken),
         pushRelayToken := Or(env.pushRelayToken, cfg.pushRelayToken),
         pushRelayURL := Or(env.pushRelayURL, cfg.pushRelayURL),
         serverName := Or(env.serverName, cfg.serverName))
  }

  function FlagText(flag: Option<string>): string
  {
    if flag.Some? then flag.value else ""
  }

  function ApplyFlags(cfg: FileConfig, flags: Flags): FileConfig
  {
    cfg.(listenAddr := Or(FlagText(flags.listenAddr), cfg.listenAddr),
         dbPath := Or(FlagText(flags.dbPath), cfg.dbPath),
         pollInterval := if flags.pollInterval.Some? && flags.pollInterval.value != 0
                         then flags.pollInterval.value else cfg.pollInterval,
         pairingToken := Or(FlagText(flags.pairingToken), cfg.pairingToken),
         pushRelayToken := Or(FlagText(flags.pushRelayToken), cfg.pushRelayToken),
         pushRelayURL := Or(FlagText(flags.pushRelayURL), cfg.pushRelayURL),
         serverName := Or(FlagText(flags.serverName), cfg.serverName))
  }

  function Validate(cfg: FileConfig): Option<LoadError>
  {
    if cfg.listenAddr == "" then Some(EmptySetting)
    else if cfg.pollInterval <= 0 then Some(NotPositive)
    else if cfg.dbPath == "" then Some(EmptySetting)
    else None
  }

  const EMPTY_LAYER := FileConfig("", "", 0, "", "", "", "", None, None)

  function FileLayer(codec: Codec, flags: Flags, file: File): Result<FileConfig, LoadError>
  {
    match flags.configFile
    case NoPath => Ok(EMPTY_LAYER)
    case Path(extension) => LoadFile(codec, extension, file)
  }

  function Load(codec: Codec, hostname: string, flags: Flags, env: Environment, file: File)
    : Result<FileConfig, LoadError>
  {
    match flags.configFile
    case NoPath => Finish(codec, Defaults(hostname), flags, env)
    case Path(extension) =>
      match LoadFile(codec, extension, file)
      case Err(e) => Err(e)
      case Ok(fileCfg) => Finish(codec, MergeNonZero(Defaults(hostname), fileCfg), flags, env)
  }

  function Finish(codec: Codec, cfg: FileConfig, flags: Flags, env: Environment): Result<FileConfig, LoadError>
  {
    var final := ApplyFlags(ApplyEnv(codec, cfg, env), flags);
    match Validate(final)
    case Some(e) => Err(e)
    case None => Ok(final)
  }

  /** A text setting is a non-empty flag, else a non-empty environment value, else the file's if that
      is not empty, else the default. */
  ghost predicate TextFrom(value: string, flag: Option<string>, envText: string, fileText: string, default: string)
  {
    value == if flag.Some? && flag.value != "" then flag.value
             else if envText != "" then envText
             else if fileText != "" then fileText
             else default
  }

  /** The poll interval is a non-zero flag, else a parseable environment value (zero counts), else
      the file's if that is not zero, else five minutes. */
  ghost function Winning(codec: Codec, flags: Flags, env: Environment, fileInterval: int): int
  {
    if flags.pollInterval.Some? && flags.pollInterval.value != 0 then flags.pollInterval.value
    else if env.pollInterval != "" && codec.parse(env.pollInterval).Some? then codec.parse(env.pollInterval).value
    else if fileInterval != 0 then fileInterval
    else 300_000_000_000
  }

  lemma NoFileIsEmptyLayer(hostname: string)
    ensures MergeNonZero(Defaults(hostname), EMPTY_LAYER) == Defaults(hostname)
  {
  }

  /** What the file gives a text setting: nothing without a file or without the key. */
  ghost function FileText(flags: Flags, file: File, key: Key): string
  {
    if flags.configFile.Path? && file.Parsed? && key in file.keys && file.keys[key].JString?
    then file.keys[key].text else ""
  }

  /** The interval in the file, zero when it gives none. */
  ghost function FileInterval(codec: Codec, flags: Flags, file: File): int
  {
    var text := FileText(flags, file, PollInterval);
    if text != "" && codec.parse(text).Some? then codec.parse(text).value else 0
  }

  /** The rules in the file, as described there, or none. */
  ghost predicate RulesFrom(codec: Codec, flags: Flags, file: File, rules: Option<seq<Rule>>)
  {
    if flags.configFile.Path? && file.Parsed? && RulesKey in file.keys && file.keys[RulesKey].JRules? then
      var js := file.keys[RulesKey].rules;
      && rules.Some? && |rules.value| == |js|
      && forall i :: 0 <= i < |js| ==> Describes(codec, js[i], rules.value[i])
    else rules == None
  }

  ghost predicate ServiceRulesFrom(codec: Codec, flags: Flags, file: File, rules: Option<seq<ServiceRule>>)
  {
    if flags.configFile.Path? && file.Parsed? && ServiceRulesKey in file.keys
       && file.keys[ServiceRulesKey].JServiceRules? then
      var js := file.keys[ServiceRulesKey].serviceRules;
      && rules.Some? && |rules.value| == |js|
      && forall i :: 0 <= i < |js| ==> DescribesService(codec, js[i], rules.value[i])
    else rules == None
  }

  ghost predicate TextOrNull(keys: map<Key, JsonValue>, key: Key)
  {
    key in keys ==> keys[key].JString? || keys[key].JNull?
  }

  /** Every setting has the type it should have, and every duration can be read. */
  ghost predicate WellTyped(codec: Codec, keys: map<Key, JsonValue>)
  {
    && TextOrNull(keys, ListenAddr) && TextOrNull(keys, DBPath) && TextOrNull(keys, PollInterval)
    && TextOrNull(keys, PairingToken) && TextOrNull(keys, PushRelayToken) && TextOrNull(keys, PushRelayURL)
    && TextOrNull(keys, ServerName)
    && (PollInterval in keys && keys[PollInterval].JString? && keys[PollInterval].text != "" ==>
          codec.parse(keys[PollInterval].text).Some?)
    && (RulesKey in keys && !keys[RulesKey].JNull? ==>
          keys[RulesKey].JRules? && forall j :: j in keys[RulesKey].rules ==> !BadRule(codec, j))
    && (ServiceRulesKey in keys && !keys[ServiceRulesKey].JNull? ==>
          keys[ServiceRulesKey].JServiceRules?
          && forall j :: j in keys[ServiceRulesKey].serviceRules ==> !BadRepeat(codec, j.repeatText))
  }

  lemma RulesDecodeIff(codec: Codec, js: seq<RuleJson>)
    ensures DecodeRules(codec, js).Some? <==> forall j :: j in js ==> !BadRule(codec, j)
  {
    forall i | 0 <= i < |js| ensures DecodeRule(codec, js[i]) == None <==> BadRule(codec, js[i]) {
      DecodeRuleIff(codec, js[i]);
    }
    assert forall i :: 0 <= i < |js| ==> js[i] in js;
  }

  lemma ServiceRulesDecodeIff(codec: Codec, js: seq<ServiceRuleJson>)
    ensures DecodeServiceRules(codec, js).Some? <==> forall j :: j in js ==> !BadRepeat(codec, j.repeatText)
  {
    forall i | 0 <= i < |js| ensures DecodeServiceRule(codec, js[i]) == None <==> BadRepeat(codec, js[i].repeatText) {
      DecodeServiceRuleIff(codec, js[i]);
    }
    assert forall i :: 0 <= i < |js| ==> js[i] in js;
  }

  lemma TextsReadIff(keys: map<Key, JsonValue>)
    ensures ReadTexts(keys).Some? <==>
            && TextOrNull(keys, ListenAddr) && TextOrNull(keys, DBPath) && TextOrNull(keys, PollInterval)
            && TextOrNull(keys, PairingToken) && TextOrNull(keys, PushRelayToken)
            && TextOrNull(keys, PushRelayURL) && TextOrNull(keys, ServerName)
  {
  }

  lemma RulesReadIff(codec: Codec, keys: map<Key, JsonValue>)
    ensures RulesIn(codec, keys).Some? <==>
            (RulesKey in keys && !keys[RulesKey].JNull? ==>
               keys[RulesKey].JRules? && forall j :: j in keys[RulesKey].rules ==> !BadRule(codec, j))
    ensures ServiceRulesIn(codec, keys).Some? <==>
            (ServiceRulesKey in keys && !keys[ServiceRulesKey].JNull? ==>
               keys[ServiceRulesKey].JServiceRules?
               && forall j :: j in keys[ServiceRulesKey].serviceRules ==> !BadRepeat(codec, j.repeatText))
  {
    if RulesKey in keys && keys[RulesKey].JRules? {
      RulesDecodeIff(codec, keys[RulesKey].rules);
    }
    if ServiceRulesKey in keys && keys[ServiceRulesKey].JServiceRules? {
      ServiceRulesDecodeIff(codec, keys[ServiceRulesKey].serviceRules);
    }
  }

  /** A JSON object decodes exactly when it is well typed. */
  lemma KeysDecodeIff(codec: Codec, keys: map<Key, JsonValue>)
    ensures DecodeKeys(codec, keys).Ok? <==> WellTyped(codec, keys)
  {
    TextsReadIff(keys);
    RulesReadIff(codec, keys);
  }

  /** The files that a configuration is loaded from: on a path with the JSON extension or none, one
      that holds `null` or a well-typed config. */
  lemma FileLayerIff(codec: Codec, flags: Flags, file: File)
    ensures FileLayer(codec, flags, file).Ok? <==>
            (flags.configFile.Path? ==>
               && (flags.configFile.extension.JsonExtension? || flags.configFile.extension.NoExtension?)
               && (file.NullDocument? || (file.Parsed? && WellTyped(codec, file.keys))))
  {
    if file.Parsed? {
      KeysDecodeIff(codec, file.keys);
    }
    KeysDecodeIff(codec, map[]);
  }

  lemma FileLayerReadsKeys(codec: Codec, flags: Flags, file: File)
    requires FileLayer(codec, flags, file).Ok?
    ensures var over := FileLayer(codec, flags, file).value;
            && over.listenAddr == FileText(flags, file, ListenAddr)
            && over.dbPath == FileText(flags, file, DBPath)
            && over.pairingToken == FileText(flags, file, PairingToken)
            && over.pushRelayToken == FileText(flags, file, PushRelayToken)
            && over.pushRelayURL == FileText(flags, file, PushRelayURL)
            && over.serverName == FileText(flags, file, ServerName)
            && over.pollInterval == FileInterval(codec, flags, file)
  {
  }

  lemma FileLayerReadsRules(codec: Codec, flags: Flags, file: File)
    requires FileLayer(codec, flags, file).Ok?
    ensures RulesFrom(codec, flags, file, FileLayer(codec, flags, file).value.rules)
    ensures ServiceRulesFrom(codec, flags, file, FileLayer(codec, flags, file).value.serviceRules)
  {
    if flags.configFile.Path? && file.Parsed? {
      if RulesKey in file.keys && file.keys[RulesKey].JRules? {
        var js := file.keys[RulesKey].rules;
        forall i | 0 <= i < |js|
          ensures forall r :: DecodeRule(codec, js[i]) == Some(r) <==> Describes(codec, js[i], r)
        {
          DecodeRuleIff(codec, js[i]);
        }
      }
      if ServiceRulesKey in file.keys && file.keys[ServiceRulesKey].JServiceRules? {
        var js := file.keys[ServiceRulesKey].serviceRules;
        forall i | 0 <= i < |js|
          ensures forall r :: DecodeServiceRule(codec, js[i]) == Some(r) <==> DescribesService(codec, js[i], r)
        {
          DecodeServiceRuleIff(codec, js[i]);
        }
      }
    }
  }

  lemma FinishedInterval(codec: Codec, hostname: string, flags: Flags, env: Environment, over: FileConfig)
    ensures ApplyFlags(ApplyEnv(codec, MergeNonZero(Defaults(hostname), over), env), flags).pollInterval
            == Winning(codec, flags, env, over.pollInterval)
  {
  }

  lemma LoadFinishes(codec: Codec, hostname: string, flags: Flags, env: Environment, file: File)
    requires FileLayer(codec, flags, file).Ok?
    ensures Load(codec, hostname, flags, env, file)
            == Finish(codec, MergeNonZero(Defaults(hostname), FileLayer(codec, flags, file).value), flags, env)
  {
    NoFileIsEmptyLayer(hostname);
  }

  /** Every setting of a loaded configuration is the one of its highest-precedence layer that is set:
      flag, environment, file, default. Rules come from the file alone. */
  lemma LoadTakesHighestLayer(codec: Codec, hostname: string, flags: Flags, env: Environment, file: File)
    requires Load(codec, hostname, flags, env, file).Ok?
    ensures var cfg := Load(codec, hostname, flags, env, file).value;
            && cfg.pollInterval == Winning(codec, flags, env, FileInterval(codec, flags, file))
            && TextFrom(cfg.listenAddr, flags.listenAddr, env.listenAddr,
                        FileText(flags, file, ListenAddr), "127.0.0.1:8443")
            && TextFrom(cfg.dbPath, flags.dbPath, env.dbPath,
                        FileText(flags, file, DBPath), "gateshell-agent.db")
            && TextFrom(cfg.pairingToken, flags.pairingToken, env.pairingToken,
                        FileText(flags, file, PairingToken), "")
            && TextFrom(cfg.pushRelayToken, flags.pushRelayToken, env.pushRelayToken,
                        FileText(flags, file, PushRelayToken), "")
            && TextFrom(cfg.pushRelayURL, flags.pushRelayURL, env.pushRelayURL,
                        FileText(flags, file, PushRelayURL), "")
            && TextFrom(cfg.serverName, flags.serverName, env.serverName,
                        FileText(flags, file, ServerName), if hostname == "" then "gateshell-agent" else hostname)
            && RulesFrom(codec, flags, file, cfg.rules)
            && ServiceRulesFrom(codec, flags, file, cfg.serviceRules)
  {
    LoadFinishes(codec, hostname, flags, env, file);
    FileLayerReadsKeys(codec, flags, file);
    FileLayerReadsRules(codec, flags, file);
    FinishedInterval(codec, hostname, flags, env, FileLayer(codec, flags, file).value);
  }

  /** Loading succeeds exactly when the file named, if any, has the JSON extension or none and holds
      `null` or a well-typed object, and the winning interval is positive. */
  lemma LoadSucceedsIff(codec: Codec, hostname: string, flags: Flags, env: Environment, file: File)
    ensures Load(codec, hostname, flags, env, file).Ok? <==>
            && (flags.configFile.Path? ==>
                  && (flags.configFile.extension.JsonExtension? || flags.configFile.extension.NoExtension?)
                  && (file.NullDocument? || (file.Parsed? && WellTyped(codec, file.keys))))
            && Winning(codec, flags, env, FileInterval(codec, flags, file)) > 0
  {
    FileLayerIff(codec, flags, file);
    if FileLayer(codec, flags, file).Ok? {
      LoadFinishes(codec, hostname, flags, env, file);
      FileLayerReadsKeys(codec, flags, file);
      FinishedInterval(codec, hostname, flags, env, FileLayer(codec, flags, file).value);
    }
  }

  // ---------------------------------------------------------------------------------------
  // Saving
  // ---------------------------------------------------------------------------------------

  function Savable(path: Path): bool
  {
    path == Path(JsonExtension) || path == Path(NoExtension)
  }

  datatype Outcome = Saved | Refused | Panicked

  class ConfigFile {
    var content: File

    constructor (content: File)
      ensures this.content == content
    {
      this.content := content;
    }

    /** Overlays the given keys on those of the file and writes the result back whole. A file that
        holds `null` leaves the save without a map to assign to. */
    method SaveFields(path: Path, fields: map<Key, JsonValue>, writeOk: bool) returns (outcome: Outcome)
      modifies this
      ensures outcome == Saved <==>
              && path.Path? && (path.extension.JsonExtension? || path.extension.NoExtension?)
              && !old(content).Malformed? && !(old(content).NullDocument? && fields != map[]) && writeOk
      ensures outcome == Panicked <==>
              && path.Path? && (path.extension.JsonExtension? || path.extension.NoExtension?)
              && old(content).NullDocument? && fields != map[]
      ensures outcome != Saved || old(content).NullDocument? ==> content == old(content)
      ensures outcome == Saved && !old(content).NullDocument? ==>
                && content.Parsed?
                && content.keys == (if old(content).Parsed? then old(content).keys else map[]) + fields
    {
      if !Savable(path) || content == Malformed {
        return Refused;
      }
      if content == NullDocument {
        return if fields != map[] then Panicked else if writeOk then Saved else Refused;
      }
      var raw := if content.Parsed? then content.keys else map[];
      ghost var start := raw;
      var todo := fields.Keys;
      while todo != {}
        invariant todo <= fields.Keys
        invariant raw.Keys == start.Keys + (fields.Keys - todo)
        invariant forall key :: key in fields.Keys - todo ==> raw[key] == fields[key]
        invariant forall key :: key in start && key !in fields.Keys - todo ==> raw[key] == start[key]
        decreases todo
      {
        var key :| key in todo;
        raw := raw[key := fields[key]];
        todo := todo - {key};
      }
      assert raw == start + fields;
      if !writeOk {
        return Refused;
      }
      content := Parsed(raw);
      outcome := Saved;
    }

    method SavePollInterval(codec: Codec, path: Path, d: Duration, writeOk: bool) returns (outcome: Outcome)
      modifies this
      ensures outcome == Saved <==>
              && path.Path? && (path.extension.JsonExtension? || path.extension.NoExtension?)
              && !old(content).Malformed? && !old(content).NullDocument? && writeOk
      ensures outcome == Panicked <==>
              && path.Path? && (path.extension.JsonExtension? || path.extension.NoExtension?)
              && old(content).NullDocument?
      ensures outcome != Saved ==> content == old(content)
      ensures outcome == Saved ==>
                content == Parsed((if old(content).Parsed? then old(content).keys else map[])
                                  + map[PollInterval := JString(codec.show(d))])
    {
      var fields := map[PollInterval := JString(codec.show(d))];
      assert PollInterval in fields;
      outcome := SaveFields(path, fields, writeOk);
    }

    method SaveRules(codec: Codec, path: Path, rules: seq<Rule>, serviceRules: seq<ServiceRule>, writeOk: bool)
      returns (outcome: Outcome)
      modifies this
      ensures outcome == Saved <==>
              && path.Path? && (path.extension.JsonExtension? || path.extension.NoExtension?)
              && !old(content).Malformed? && !old(content).NullDocument? && writeOk
      ensures outcome == Panicked <==>
              && path.Path? && (path.extension.JsonExtension? || path.extension.NoExtension?)
              && old(content).NullDocument?
      ensures outcome != Saved ==> content == old(content)
      ensures outcome == Saved ==>
                content == Parsed((if old(content).Parsed? then old(content).keys else map[])
                                  + map[RulesKey := JRules(EncodeRules(codec, rules)),
                                        ServiceRulesKey := JServiceRules(EncodeServiceRules(codec, serviceRules))])
    {
      var fields := map[RulesKey := JRules(EncodeRules(codec, rules)),
                        ServiceRulesKey := JServiceRules(EncodeServiceRules(codec, serviceRules))];
      assert RulesKey in fields;
      outcome := SaveFields(path, fields, writeOk);
    }
  }

  /** A file that holds JSON `null` starts the agent like no file at all, although no setting can be
      saved to it. */
  lemma NullLoadsLikeNoFile(codec: Codec, hostname: string, flags: Flags, env: Environment)
    requires Savable(flags.configFile)
    ensures Load(codec, hostname, flags, env, NullDocument)
            == Load(codec, hostname, flags.(configFile := NoPath), env, Missing)
  {
    assert ReadTexts(map[]) == Some(Texts("", "", "", "", "", "", ""));
    assert DecodeKeys(codec, map[]) == Ok(EMPTY_LAYER);
    NoFileIsEmptyLayer(hostname);
  }

  datatype Save = Poll(d: Duration) | RuleSets(rules: seq<Rule>, serviceRules: seq<ServiceRule>)

  function AfterSave(codec: Codec, keys: map<Key, JsonValue>, save: Save): map<Key, JsonValue>
  {
    match save
    case Poll(d) => keys[PollInterval := JString(codec.show(d))]
    case RuleSets(rules, serviceRules) =>
      keys[RulesKey := JRules(EncodeRules(codec, rules))]
          [ServiceRulesKey := JServiceRules(EncodeServiceRules(codec, serviceRules))]
  }

  function AfterSaves(codec: Codec, keys: map<Key, JsonValue>, saves: seq<Save>): map<Key, JsonValue>
  {
    if saves == [] then keys
    else AfterSave(codec, AfterSaves(codec, keys, saves[..|saves| - 1]), saves[|saves| - 1])
  }

  /** Saving the interval and saving the rules commute. */
  lemma SavesCommute(codec: Codec, keys: map<Key, JsonValue>, d: Duration, rules: seq<Rule>,
          serviceRules: seq<ServiceRule>)
    ensures AfterSaves(codec, keys, [Poll(d), RuleSets(rules, serviceRules)])
            == AfterSaves(codec, keys, [RuleSets(rules, serviceRules), Poll(d)])
  {
  }

  function LastInterval(saves: seq<Save>, base: Duration): Duration
  {
    if saves == [] then base
    else if saves[|saves| - 1].Poll? then saves[|saves| - 1].d
    else LastInterval(saves[..|saves| - 1], base)
  }

  function LastRules(saves: seq<Save>, base: Option<seq<Rule>>): Option<seq<Rule>>
  {
    if saves == [] then base
    else if saves[|saves| - 1].RuleSets? then Some(saves[|saves| - 1].rules)
    else LastRules(saves[..|saves| - 1], base)
  }

  function LastServiceRules(saves: seq<Save>, base: Option<seq<ServiceRule>>): Option<seq<ServiceRule>>
  {
    if saves == [] then base
    else if saves[|saves| - 1].RuleSets? then Some(saves[|saves| - 1].serviceRules)
    else LastServiceRules(saves[..|saves| - 1], base)
  }

  ghost predicate AllRepeatable(saves: seq<Save>)
  {
    forall s :: s in saves && s.RuleSets? ==> Repeatable(s.rules, s.serviceRules)
  }

  /** Settings of other keys read the same. */
  lemma OtherTextsUnchanged(before: map<Key, JsonValue>, after: map<Key, JsonValue>)
    requires forall key :: key != PollInterval && key != RulesKey && key != ServiceRulesKey ==>
               Value(after, key) == Value(before, key)
    requires ReadTexts(before).Some? && Text(after, PollInterval).Some?
    ensures ReadTexts(after) == Some(ReadTexts(before).value.(pollInterval := Text(after, PollInterval).value))
  {
  }

  lemma PollDecodes(codec: Codec, keys: map<Key, JsonValue>, d: Duration)
    requires Faithful(codec) && DecodeKeys(codec, keys).Ok?
    ensures DecodeKeys(codec, AfterSave(codec, keys, Poll(d)))
            == Ok(DecodeKeys(codec, keys).value.(pollInterval := d))
  {
    var after := AfterSave(codec, keys, Poll(d));
    OtherTextsUnchanged(keys, after);
    assert RulesIn(codec, after) == RulesIn(codec, keys);
    assert ServiceRulesIn(codec, after) == ServiceRulesIn(codec, keys);
  }

  lemma RuleSetsRead(codec: Codec, keys: map<Key, JsonValue>, rules: seq<Rule>, serviceRules: seq<ServiceRule>)
    requires Faithful(codec) && Repeatable(rules, serviceRules)
    ensures RulesIn(codec, AfterSave(codec, keys, RuleSets(rules, serviceRules))) == Some(Some(rules))
    ensures ServiceRulesIn(codec, AfterSave(codec, keys, RuleSets(rules, serviceRules))) == Some(Some(serviceRules))
  {
    RulesRoundTrip(codec, rules);
    ServiceRulesRoundTrip(codec, serviceRules);
  }

  lemma RuleSetsDecode(codec: Codec, keys: map<Key, JsonValue>, rules: seq<Rule>, serviceRules: seq<ServiceRule>)
    requires Faithful(codec) && DecodeKeys(codec, keys).Ok? && Repeatable(rules, serviceRules)
    ensures DecodeKeys(codec, AfterSave(codec, keys, RuleSets(rules, serviceRules)))
            == Ok(DecodeKeys(codec, keys).value.(rules := Some(rules), serviceRules := Some(serviceRules)))
  {
    OtherTextsUnchanged(keys, AfterSave(codec, keys, RuleSets(rules, serviceRules)));
    RuleSetsRead(codec, keys, rules, serviceRules);
  }

  /** After any sequence of saves the file decodes to what it held before, with the interval and
      the rules replaced by those saved last. */
  lemma {:induction false} SavesDecode(codec: Codec, keys: map<Key, JsonValue>, saves: seq<Save>)
    requires Faithful(codec) && DecodeKeys(codec, keys).Ok? && AllRepeatable(saves)
    ensures var was := DecodeKeys(codec, keys).value;
            DecodeKeys(codec, AfterSaves(codec, keys, saves)) ==
            Ok(was.(pollInterval := LastInterval(saves, was.pollInterval),
                    rules := LastRules(saves, was.rules),
                    serviceRules := LastServiceRules(saves, was.serviceRules)))
  {
    if saves != [] {
      var init := saves[..|saves| - 1];
      assert saves[|saves| - 1] in saves && forall s :: s in init ==> s in saves;
      SavesDecode(codec, keys, init);
      match saves[|saves| - 1]
      case Poll(d) => PollDecodes(codec, AfterSaves(codec, keys, init), d);
      case RuleSets(rules, serviceRules) => RuleSetsDecode(codec, AfterSaves(codec, keys, init), rules, serviceRules);
    }
  }

  lemma LayerOfParsed(codec: Codec, flags: Flags, keys: map<Key, JsonValue>)
    requires Savable(flags.configFile)
    ensures FileLayer(codec, flags, Parsed(keys)) == DecodeKeys(codec, keys)
  {
  }

  lemma LoadOfLayer(codec: Codec, hostname: string, flags: Flags, env: Environment, file: File)
    requires FileLayer(codec, flags, file).Ok?
    ensures var over := FileLayer(codec, flags, file).value;
            var win := Winning(codec, flags, env, over.pollInterval);
            match Load(codec, hostname, flags, env, file)
            case Err(_) => win <= 0
            case Ok(cfg) =>
              win > 0 && cfg.pollInterval == win && cfg.rules == over.rules && cfg.serviceRules == over.serviceRules
  {
    LoadFinishes(codec, hostname, flags, env, file);
    FinishedInterval(codec, hostname, flags, env, FileLayer(codec, flags, file).value);
  }

  /** A restart after any saves gets the last rules back whenever it succeeds. Its interval is the
      flag's, or the environment's, or the one saved last, or the default; a saved zero ("paused")
      is read back as the default, and the agent does not start exactly when the winning interval
      is not positive. */
  lemma RestartRestoresSaves(codec: Codec, hostname: string, flags: Flags, env: Environment,
                             keys: map<Key, JsonValue>, saves: seq<Save>)
    requires Faithful(codec) && WellTyped(codec, keys) && AllRepeatable(saves)
    requires Savable(flags.configFile)
    ensures DecodeKeys(codec, keys).Ok?
    ensures Restored(codec, flags, env, DecodeKeys(codec, keys).value, saves,
                     Load(codec, hostname, flags, env, Parsed(AfterSaves(codec, keys, saves))))
  {
    KeysDecodeIff(codec, keys);
    SavesDecode(codec, keys, saves);
    LayerOfParsed(codec, flags, AfterSaves(codec, keys, saves));
    LoadOfLayer(codec, hostname, flags, env, Parsed(AfterSaves(codec, keys, saves)));
  }

  /** The outcome of a restart, where `was` is what the file said before the saves. */
  ghost predicate Restored(codec: Codec, flags: Flags, env: Environment, was: FileConfig, saves: seq<Save>,
                           loaded: Result<FileConfig, LoadError>)
  {
    var win := if flags.pollInterval.Some? && flags.pollInterval.value != 0 then flags.pollInterval.value
               else if env.pollInterval != "" && codec.parse(env.pollInterval).Some?
               then codec.parse(env.pollInterval).value
               else if LastInterval(saves, was.pollInterval) != 0 then LastInterval(saves, was.pollInterval)
               else 300_000_000_000;
    match loaded
    case Err(_) => win <= 0
    case Ok(cfg) =>
      && win > 0 && cfg.pollInterval == win
      && cfg.rules == LastRules(saves, was.rules)
      && cfg.serviceRules == LastServiceRules(saves, was.serviceRules)
  }

  /** The last save of each kind is the one that counts. */
  lemma {:induction false} LastSaveCounts(saves: seq<Save>, i: nat, was: FileConfig)
    requires i < |saves|
    ensures saves[i].Poll? && (forall j :: i < j < |saves| ==> !saves[j].Poll?) ==>
              LastInterval(saves, was.pollInterval) == saves[i].d
    ensures saves[i].RuleSets? && (forall j :: i < j < |saves| ==> !saves[j].RuleSets?) ==>
              && LastRules(saves, was.rules) == Some(saves[i].rules)
              && LastServiceRules(saves, was.serviceRules) == Some(saves[i].serviceRules)
  {
    if i < |saves| - 1 {
      LastSaveCounts(saves[..|saves| - 1], i, was);
    }
  }

  /** The saves whose write succeeded, in order. */
  ghost function Written(saves: seq<Save>, writes: seq<bool>): seq<Save>
    requires |saves| == |writes|
  {
    if saves == [] then []
    else
      var n := |saves| - 1;
      Written(saves[..n], writes[..n]) + if writes[n] then [saves[n]] else []
  }

  lemma {:induction false} WrittenAreSaves(saves: seq<Save>, writes: seq<bool>)
    requires |saves| == |writes|
    ensures forall save :: save in Written(saves, writes) ==> save in saves
  {
    if saves != [] {
      WrittenAreSaves(saves[..|saves| - 1], writes[..|saves| - 1]);
    }
  }

  lemma SaveApplies(codec: Codec, keys: map<Key, JsonValue>, save: Save)
    ensures save.Poll? ==>
              AfterSave(codec, keys, save) == keys + map[PollInterval := JString(codec.show(save.d))]
    ensures save.RuleSets? ==>
              AfterSave(codec, keys, save) ==
              keys + map[RulesKey := JRules(EncodeRules(codec, save.rules)),
                         ServiceRulesKey := JServiceRules(EncodeServiceRules(codec, save.serviceRules))]
  {
  }

  lemma SavesGrow(codec: Codec, keys: map<Key, JsonValue>, saves: seq<Save>, save: Save)
    ensures AfterSaves(codec, keys, saves + [save]) == AfterSave(codec, AfterSaves(codec, keys, saves), save)
  {
    assert (saves + [save])[..|saves|] == saves;
  }

  /** The file object, put through saves some of which cannot be written, and a restart from it: the
      file has exactly the saves that were written, and the restart gets the last of them back. */
  method SaveAndRestart(codec: Codec, hostname: string, flags: Flags, env: Environment, start: File,
                        saves: seq<Save>, writes: seq<bool>)
    returns (file: File, loaded: Result<FileConfig, LoadError>)
    requires |saves| == |writes|
    requires flags.configFile.Path?
    requires flags.configFile.extension.JsonExtension? || flags.configFile.extension.NoExtension?
    requires start.Missing? || start.Empty? || start.Parsed?
    ensures var keys := if start.Parsed? then start.keys else map[];
            && (start.Parsed? || Written(saves, writes) != [] ==>
                  && file == Parsed(AfterSaves(codec, keys, Written(saves, writes)))
                  && (Faithful(codec) && WellTyped(codec, keys) && AllRepeatable(saves) ==>
                        && DecodeKeys(codec, keys).Ok?
                        && Restored(codec, flags, env, DecodeKeys(codec, keys).value, Written(saves, writes), loaded)))
            && (!start.Parsed? && Written(saves, writes) == [] ==> file == start && loaded.Err?)
  {
    var config := new ConfigFile(start);
    ghost var keys := if start.Parsed? then start.keys else map[];
    for i := 0 to |saves|
      invariant config.content == if start.Parsed? || Written(saves[..i], writes[..i]) != []
                                  then Parsed(AfterSaves(codec, keys, Written(saves[..i], writes[..i]))) else start
    {
      ghost var before := Written(saves[..i], writes[..i]);
      assert saves[..i + 1][..i] == saves[..i] && writes[..i + 1][..i] == writes[..i];
      assert Written(saves[..i + 1], writes[..i + 1]) == if writes[i] then before + [saves[i]] else before;
      SaveApplies(codec, AfterSaves(codec, keys, before), saves[i]);
      SavesGrow(codec, keys, before, saves[i]);
      match saves[i] {
        case Poll(d) =>
          var _ := config.SavePollInterval(codec, flags.configFile, d, writes[i]);
        case RuleSets(rules, serviceRules) =>
          var _ := config.SaveRules(codec, flags.configFile, rules, serviceRules, writes[i]);
      }
    }
    assert saves[..|saves|] == saves && writes[..|saves|] == writes;
    file := config.content;
    loaded := Load(codec, hostname, flags, env, file);
    LoadSucceedsIff(codec, hostname, flags, env, file);
    if file.Parsed? && Faithful(codec) && WellTyped(codec, keys) && AllRepeatable(saves) {
      WrittenAreSaves(saves, writes);
      RestartRestoresSaves(codec, hostname, flags, env, keys, Written(saves, writes));
    }
  }
}
