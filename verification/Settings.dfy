/** Settings and their form in the .env file: PatchableFields, Save and the typed getters of
internal/config/config.go. */
module Settings {
  import opened Basics
  import opened Decimal
  import opened EnvFile
  import opened Text

  // ---------------------------------------------------------------- names

  datatype Name =
    | Host | Port | AdminPassword | UpstreamBaseUrl | EgressProxy | FingerprintProfile | FingerprintNodeVersion
    | U1S1Version | BarkKey | SiteFeedCheckHours | LogLevel | LogColor | Debug | QuotaAutoRefresh

  function KeyOf(n: Name): string {
    match n
    case Host => "HOST"
    case Port => "PORT"
    case AdminPassword => "ADMIN_PASSWORD"
    case UpstreamBaseUrl => "UPSTREAM_BASE_URL"
    case EgressProxy => "EGRESS_PROXY"
    case FingerprintProfile => "FINGERPRINT_PROFILE"
    case FingerprintNodeVersion => "FINGERPRINT_NODE_VERSION"
    case U1S1Version => "U1S1_VERSION"
    case BarkKey => "BARK_KEY"
    case SiteFeedCheckHours => "SITEFEED_CHECK_HOURS"
    case LogLevel => "LOG_LEVEL"
    case LogColor => "LOG_COLOR"
    case Debug => "DEBUG"
    case QuotaAutoRefresh => "QUOTA_AUTO_REFRESH"
  }

  predicate KeyChar(c: char) {
    'A' <= c <= 'Z' || '0' <= c <= '9' || c == '_'
  }

  lemma ShortKeyChars(n: Name)
    requires |KeyOf(n)| <= 9
    ensures forall i | 0 <= i < |KeyOf(n)| :: KeyChar(KeyOf(n)[i])
  {
  }

  lemma LongKeyChars(n: Name)
    requires 9 < |KeyOf(n)| <= 17
    ensures forall i | 0 <= i < |KeyOf(n)| :: KeyChar(KeyOf(n)[i])
  {
  }

  lemma LongestKeyChars(n: Name)
    requires 17 < |KeyOf(n)|
    ensures forall i | 0 <= i < |KeyOf(n)| :: KeyChar(KeyOf(n)[i])
  {
  }

  lemma KeysTrimmed(n: Name)
    ensures KeyOf(n) != [] && KeyOf(n)[0] != '#' && Trimmed(KeyOf(n), Spaces)
  {
  }

  lemma KeysClean(n: Name)
    ensures CleanKey(KeyOf(n))
  {
    if |KeyOf(n)| <= 9 {
      ShortKeyChars(n);
    } else if |KeyOf(n)| <= 17 {
      LongKeyChars(n);
    } else {
      LongestKeyChars(n);
    }
    KeysTrimmed(n);
  }

  lemma KeysDistinct(m: Name, n: Name)
    requires KeyOf(m) == KeyOf(n)
    ensures m == n
  {
    assert |KeyOf(m)| == |KeyOf(n)| && KeyOf(m)[0] == KeyOf(n)[0];
    assert |KeyOf(m)| == 9 ==> KeyOf(m)[4] == KeyOf(n)[4];
  }

  // ---------------------------------------------------------------- settings

  datatype Settings = Settings(
    host: string, port: Int64, adminPassword: string, upstreamBaseUrl: string, egressProxyUrl: string,
    fingerprintProfile: string, fingerprintNodeVersion: string, u1s1Version: string, barkKey: string,
    siteFeedCheckHours: Int64, logLevel: string, logColor: bool, debug: bool, quotaAutoRefresh: bool, firstRun: bool)

  function BoolStr(b: bool): string {
    if b then "true" else "false"
  }

  function FieldOf(s: Settings, n: Name): string {
    match n
    case Host => s.host
    case Port => Itoa(s.port)
    case AdminPassword => s.adminPassword
    case UpstreamBaseUrl => s.upstreamBaseUrl
    case EgressProxy => s.egressProxyUrl
    case FingerprintProfile => s.fingerprintProfile
    case FingerprintNodeVersion => s.fingerprintNodeVersion
    case U1S1Version => s.u1s1Version
    case BarkKey => s.barkKey
    case SiteFeedCheckHours => Itoa(s.siteFeedCheckHours)
    case LogLevel => s.logLevel
    case LogColor => BoolStr(s.logColor)
    case Debug => BoolStr(s.debug)
    case QuotaAutoRefresh => BoolStr(s.quotaAutoRefresh)
  }

  const NAMES: seq<Name> :=
    [Host, Port, AdminPassword, UpstreamBaseUrl, EgressProxy, FingerprintProfile, FingerprintNodeVersion,
     U1S1Version, BarkKey, SiteFeedCheckHours, LogLevel, LogColor, Debug, QuotaAutoRefresh]

  /** The map that gives each of these keys its value. */
  function Zip(keys: seq<string>, values: seq<string>): Env
    requires |keys| == |values|
  {
    if keys == [] then map[]
    else Zip(keys[..|keys| - 1], values[..|keys| - 1])[keys[|keys| - 1] := values[|keys| - 1]]
  }

  lemma {:induction false} ZipExact(keys: seq<string>, values: seq<string>)
    requires |keys| == |values| && forall i, j | 0 <= i < j < |keys| :: keys[i] != keys[j]
    ensures forall i | 0 <= i < |keys| :: keys[i] in Zip(keys, values) && Zip(keys, values)[keys[i]] == values[i]
    ensures forall k | k in Zip(keys, values) :: k in keys
  {
    if keys != [] {
      ZipExact(keys[..|keys| - 1], values[..|keys| - 1]);
    }
  }

  function Keys(): (keys: seq<string>)
    ensures |keys| == |NAMES|
  {
    seq(|NAMES|, i requires 0 <= i < |NAMES| => KeyOf(NAMES[i]))
  }

  function Texts(s: Settings): (texts: seq<string>)
    ensures |texts| == |NAMES|
  {
    seq(|NAMES|, i requires 0 <= i < |NAMES| => FieldOf(s, NAMES[i]))
  }

  /** Every field under its key. */
  function PatchableFields(s: Settings): Env {
    Zip(Keys(), Texts(s))
  }

  lemma AllNames(n: Name)
    ensures n in NAMES
    ensures forall i, j | 0 <= i < j < |NAMES| :: NAMES[i] != NAMES[j]
  {
    match n
    case Host => assert NAMES[0] == n;
    case Port => assert NAMES[1] == n;
    case AdminPassword => assert NAMES[2] == n;
    case UpstreamBaseUrl => assert NAMES[3] == n;
    case EgressProxy => assert NAMES[4] == n;
    case FingerprintProfile => assert NAMES[5] == n;
    case FingerprintNodeVersion => assert NAMES[6] == n;
    case U1S1Version => assert NAMES[7] == n;
    case BarkKey => assert NAMES[8] == n;
    case SiteFeedCheckHours => assert NAMES[9] == n;
    case LogLevel => assert NAMES[10] == n;
    case LogColor => assert NAMES[11] == n;
    case Debug => assert NAMES[12] == n;
    case QuotaAutoRefresh => assert NAMES[13] == n;
  }

  /** The map holds all fourteen fields, each under a key of its own. */
  lemma PatchHoldsAllFields(s: Settings)
    ensures forall n: Name :: KeyOf(n) in PatchableFields(s) && PatchableFields(s)[KeyOf(n)] == FieldOf(s, n)
    ensures forall k | k in PatchableFields(s) :: exists n: Name :: k == KeyOf(n)
  {
    var keys, texts := Keys(), Texts(s);
    KeysApart();
    ZipExact(keys, texts);
    forall n: Name
      ensures KeyOf(n) in PatchableFields(s) && PatchableFields(s)[KeyOf(n)] == FieldOf(s, n)
    {
      AllNames(n);
      var i :| 0 <= i < |NAMES| && NAMES[i] == n;
      assert keys[i] in Zip(keys, texts) && Zip(keys, texts)[keys[i]] == texts[i];
    }
    forall k | k in PatchableFields(s)
      ensures exists n: Name :: k == KeyOf(n)
    {
      var i :| 0 <= i < |keys| && keys[i] == k;
      assert k == KeyOf(NAMES[i]);
    }
  }

  lemma KeysApart()
    ensures forall i, j | 0 <= i < j < |Keys()| :: Keys()[i] != Keys()[j]
  {
    AllNames(Host);
    forall i, j | 0 <= i < j < |Keys()|
      ensures Keys()[i] != Keys()[j]
    {
      if KeyOf(NAMES[i]) == KeyOf(NAMES[j]) {
        KeysDistinct(NAMES[i], NAMES[j]);
      }
    }
  }

  function GetStr(env: Env, key: string, default: string): string {
    if key in env && Trim(env[key], Spaces) != "" then Trim(env[key], Spaces) else default
  }

  function GetInt(env: Env, key: string, default: Int64): Int64 {
    if key in env && Atoi(Trim(env[key], Spaces)).Some? then Atoi(Trim(env[key], Spaces)).value else default
  }

  /** Lower-case ASCII letters; no other character lowers to a letter of the words below. */
  function Lower(s: string): string {
    seq(|s|, i requires 0 <= i < |s| => if 'A' <= s[i] <= 'Z' then s[i] - 'A' + 'a' else s[i])
  }

  function GetBool(env: Env, key: string, default: bool): bool {
    if key !in env then default
    else
      var v := Lower(Trim(env[key], Spaces));
      if v == "1" || v == "true" || v == "yes" || v == "on" then true
      else if v == "0" || v == "false" || v == "no" || v == "off" then false
      else default
  }

  const DEFAULT_UPSTREAM := "https://api.u1s1.io/v1"

  function SettingsOf(env: Env): Settings {
    Settings(
      GetStr(env, KeyOf(Host), "127.0.0.1"),
      GetInt(env, KeyOf(Port), 8080),
      GetStr(env, KeyOf(AdminPassword), ""),
      TrimRight(GetStr(env, KeyOf(UpstreamBaseUrl), DEFAULT_UPSTREAM), Slashes),
      Trim(GetStr(env, KeyOf(EgressProxy), ""), Spaces),
      GetStr(env, KeyOf(FingerprintProfile), "auto"),
      GetStr(env, KeyOf(FingerprintNodeVersion), ""),
      GetStr(env, KeyOf(U1S1Version), "1.8.1"),
      GetStr(env, KeyOf(BarkKey), ""),
      GetInt(env, KeyOf(SiteFeedCheckHours), 24),
      GetStr(env, KeyOf(LogLevel), "info"),
      GetBool(env, KeyOf(LogColor), true),
      GetBool(env, KeyOf(Debug), false),
      GetBool(env, KeyOf(QuotaAutoRefresh), true),
      false)
  }

  /** The environment variables that override settings, empty where not set. */
  datatype OsEnv = OsEnv(host: string, port: string, adminPassword: string)

  function ApplyOsEnv(s: Settings, os: OsEnv): Settings {
    s.(host := if os.host != "" then os.host else s.host,
       port := if os.port != "" && Atoi(os.port).Some? then Atoi(os.port).value else s.port,
       adminPassword := if os.adminPassword != "" then os.adminPassword else s.adminPassword)
  }

  // ---------------------------------------------------------------- what is read of what

  /** `v` is this word of lower-case letters and digits, in any letter case. */
  predicate Spells(v: string, word: string) {
    |v| == |word| && forall i | 0 <= i < |v| ::
      v[i] == word[i] || ('a' <= word[i] <= 'z' && v[i] as int == word[i] as int - 32)
  }

  lemma LowerSpells(v: string, word: string)
    requires forall i | 0 <= i < |word| :: 'a' <= word[i] <= 'z' || '0' <= word[i] <= '9'
    ensures Lower(v) == word <==> Spells(v, word)
  {
    if Lower(v) == word {
      forall i | 0 <= i < |v|
        ensures v[i] == word[i] || ('a' <= word[i] <= 'z' && v[i] as int == word[i] as int - 32)
      {
        assert Lower(v)[i] == word[i];
      }
    }
    if Spells(v, word) {
      forall i | 0 <= i < |v|
        ensures Lower(v)[i] == word[i]
      {
      }
      assert Lower(v) == word;
    }
  }

  /** A flag is on for 1, true, yes and on, and off for 0, false, no and off, in any letter case and with white space
      around; anything else, and no line at all, leaves the default. */
  lemma FlagReads(env: Env, key: string, default: bool)
    ensures
      var on := key in env && var v := Trim(env[key], Spaces);
        Spells(v, "1") || Spells(v, "true") || Spells(v, "yes") || Spells(v, "on");
      var off := key in env && var v := Trim(env[key], Spaces);
        Spells(v, "0") || Spells(v, "false") || Spells(v, "no") || Spells(v, "off");
      GetBool(env, key, default) == (on || (!off && default))
  {
    if key in env {
      var v := Trim(env[key], Spaces);
      LowerSpells(v, "1");
      LowerSpells(v, "true");
      LowerSpells(v, "yes");
      LowerSpells(v, "on");
      LowerSpells(v, "0");
      LowerSpells(v, "false");
      LowerSpells(v, "no");
      LowerSpells(v, "off");
    }
  }

  /** A number is read from digits with at most one sign, if it fits in 64 bits; anything else, and no line at all,
      leaves the default. */
  lemma NumberReads(env: Env, key: string, default: Int64)
    ensures key !in env ==> GetInt(env, key, default) == default
    ensures key in env ==>
      var v := Trim(env[key], Spaces);
      var digits := if v != "" && v[0] in "+-" then v[1..] else v;
      if !AllDigits(digits) then GetInt(env, key, default) == default
      else
        var n := if v[0] == '-' then -(ValueOf(digits) as int) else ValueOf(digits) as int;
        GetInt(env, key, default)
        == if -9_223_372_036_854_775_808 <= n <= 9_223_372_036_854_775_807 then n else default
  {
    if key in env {
      var v := Trim(env[key], Spaces);
      var digits := if v != "" && v[0] in "+-" then v[1..] else v;
      if AllDigits(digits) {
        AtoiReads(digits);
        assert v != "" && v[0] in "+-" ==> v == [v[0]] + digits;
        assert IsDigit(digits[0]);
      } else {
        AtoiRefuses(v);
      }
    }
  }

  /** The settings of a file that sets nothing. */
  lemma DefaultSettings()
    ensures SettingsOf(map[]) ==
      Settings("127.0.0.1", 8080, "", "https://api.u1s1.io/v1", "", "auto", "", "1.8.1", "", 24, "info",
               true, false, true, false)
  {
    assert DEFAULT_UPSTREAM[|DEFAULT_UPSTREAM| - 1] == '1';
  }

  const LINE_KEYS: set<string> :=
    {"HOST", "PORT", "ADMIN_PASSWORD", "UPSTREAM_BASE_URL", "EGRESS_PROXY", "FINGERPRINT_PROFILE",
     "FINGERPRINT_NODE_VERSION", "U1S1_VERSION", "BARK_KEY", "SITEFEED_CHECK_HOURS", "LOG_LEVEL", "LOG_COLOR", "DEBUG",
     "QUOTA_AUTO_REFRESH"}

  lemma KeyIsListed(n: Name)
    ensures KeyOf(n) in LINE_KEYS
  {
  }

  /** The lines written are those of these keys. */
  lemma KeysOfSettings(s: Settings)
    ensures PatchableFields(s).Keys <= LINE_KEYS
  {
    PatchHoldsAllFields(s);
    forall k | k in PatchableFields(s)
      ensures k in LINE_KEYS
    {
      var n: Name :| k == KeyOf(n);
      KeyIsListed(n);
    }
  }

  /** Which line carries which text, number or flag. */
  lemma TextsOfSettings(s: Settings)
    ensures
      var p := PatchableFields(s);
      && LineSays(p, "HOST", s.host) && LineSays(p, "ADMIN_PASSWORD", s.adminPassword)
      && LineSays(p, "UPSTREAM_BASE_URL", s.upstreamBaseUrl) && LineSays(p, "EGRESS_PROXY", s.egressProxyUrl)
      && LineSays(p, "FINGERPRINT_PROFILE", s.fingerprintProfile)
      && LineSays(p, "FINGERPRINT_NODE_VERSION", s.fingerprintNodeVersion)
      && LineSays(p, "U1S1_VERSION", s.u1s1Version) && LineSays(p, "BARK_KEY", s.barkKey)
      && LineSays(p, "LOG_LEVEL", s.logLevel)
  {
    FieldLine(s, Host);
    FieldLine(s, AdminPassword);
    FieldLine(s, UpstreamBaseUrl);
    FieldLine(s, EgressProxy);
    FieldLine(s, FingerprintProfile);
    FieldLine(s, FingerprintNodeVersion);
    FieldLine(s, U1S1Version);
    FieldLine(s, BarkKey);
    FieldLine(s, LogLevel);
  }

  lemma NumbersOfSettings(s: Settings)
    ensures
      var p := PatchableFields(s);
      && LineSays(p, "PORT", Itoa(s.port)) && LineSays(p, "SITEFEED_CHECK_HOURS", Itoa(s.siteFeedCheckHours))
      && LineSays(p, "LOG_COLOR", if s.logColor then "true" else "false")
      && LineSays(p, "DEBUG", if s.debug then "true" else "false")
      && LineSays(p, "QUOTA_AUTO_REFRESH", if s.quotaAutoRefresh then "true" else "false")
  {
    FieldLine(s, Port);
    FieldLine(s, SiteFeedCheckHours);
    FieldLine(s, LogColor);
    FieldLine(s, Debug);
    FieldLine(s, QuotaAutoRefresh);
  }

  predicate LineSays(patch: Env, key: string, text: string) {
    key in patch && patch[key] == text
  }

  lemma FieldLine(s: Settings, n: Name)
    ensures LineSays(PatchableFields(s), KeyOf(n), FieldOf(s, n))
  {
    PatchHoldsAllFields(s);
  }

  /** The environment decides over host, port and password where it says something; a port that is no number is not
      something. */
  lemma EnvironmentDecides(s: Settings, os: OsEnv)
    ensures
      var r := ApplyOsEnv(s, os);
      && r.host == (if os.host == "" then s.host else os.host)
      && r.adminPassword == (if os.adminPassword == "" then s.adminPassword else os.adminPassword)
      && r.port == (if os.port == "" || Atoi(os.port) == None then s.port else Atoi(os.port).value)
      && r == s.(host := r.host, adminPassword := r.adminPassword, port := r.port)
  {
  }

  // ---------------------------------------------------------------- the normal form

  predicate Plain(v: string) {
    CleanValue(v) && v != ""
  }

  /** Settings that the file can hold as they are. */
  predicate Normal(s: Settings) {
    && Plain(s.host) && Plain(s.upstreamBaseUrl) && Plain(s.fingerprintProfile) && Plain(s.u1s1Version)
    && Plain(s.logLevel)
    && CleanValue(s.adminPassword) && CleanValue(s.egressProxyUrl) && CleanValue(s.fingerprintNodeVersion)
    && CleanValue(s.barkKey)
    && s.upstreamBaseUrl[|s.upstreamBaseUrl| - 1] != '/'
  }

  // ---------------------------------------------------------------- one field, written and read

  lemma TrimUnquoted(v: string)
    ensures |Trim(Unquoted(v), Spaces)| <= |v|
    ensures NEWLINE !in v ==> (Trim(Unquoted(v), Spaces) == v <==> CleanValue(v))
  {
    TrimExact(v, Spaces);
    TrimExact(Trim(v, Spaces), Quotes);
    TrimExact(Unquoted(v), Spaces);
    UnquotedExact(v);
  }

  /** A text field comes back exactly when it is clean, and not empty unless the default is. */
  lemma StrComesBack(env: Env, key: string, v: string, default: string)
    requires key in env && env[key] == Unquoted(v) && NEWLINE !in v && CleanValue(default)
    ensures GetStr(env, key, default) == v <==> CleanValue(v) && (v != "" || default == "")
  {
    TrimUnquoted(v);
  }

  lemma UrlComesBack(env: Env, key: string, v: string)
    requires key in env && env[key] == Unquoted(v) && NEWLINE !in v && Plain(DEFAULT_UPSTREAM)
    ensures TrimRight(GetStr(env, key, DEFAULT_UPSTREAM), Slashes) == v <==> Plain(v) && v[|v| - 1] != '/'
  {
    TrimUnquoted(v);
    TrimRightShrinks(GetStr(env, key, DEFAULT_UPSTREAM), Slashes);
    assert TrimRight(DEFAULT_UPSTREAM, Slashes) == DEFAULT_UPSTREAM;
  }

  lemma ProxyComesBack(env: Env, key: string, v: string)
    requires key in env && env[key] == Unquoted(v) && NEWLINE !in v
    ensures Trim(GetStr(env, key, ""), Spaces) == v <==> CleanValue(v)
  {
    StrComesBack(env, key, v, "");
    TrimExact(Unquoted(v), Spaces);
    TrimExact(GetStr(env, key, ""), Spaces);
  }

  lemma IntComesBack(env: Env, key: string, n: Int64, default: Int64)
    requires key in env && env[key] == Unquoted(Itoa(n))
    ensures GetInt(env, key, default) == n
  {
    ItoaPlain(n);
    TrimUnquoted(Itoa(n));
    AtoiOfItoa(n);
  }

  lemma BoolComesBack(env: Env, key: string, b: bool, default: bool)
    requires key in env && env[key] == Unquoted(BoolStr(b))
    ensures GetBool(env, key, default) == b
  {
    TrimUnquoted(BoolStr(b));
    assert Lower(BoolStr(b)) == BoolStr(b);
  }

  // ---------------------------------------------------------------- all fields

  /** The fields' texts hold no line break. */
  ghost predicate AllOneLine(s: Settings) {
    forall n: Name :: NEWLINE !in FieldOf(s, n)
  }

  lemma StrOneLine(env: Env, key: string, default: string)
    requires Readable(env) && NEWLINE !in default
    ensures NEWLINE !in GetStr(env, key, default)
  {
    if key in env {
      TrimExact(env[key], Spaces);
    }
  }

  lemma FieldOneLine(env: Env, n: Name)
    requires Readable(env)
    ensures NEWLINE !in FieldOf(SettingsOf(env), n)
  {
    match n
    case Host => StrOneLine(env, KeyOf(Host), "127.0.0.1");
    case AdminPassword => StrOneLine(env, KeyOf(AdminPassword), "");
    case UpstreamBaseUrl =>
      StrOneLine(env, KeyOf(UpstreamBaseUrl), DEFAULT_UPSTREAM);
      TrimRightShrinks(GetStr(env, KeyOf(UpstreamBaseUrl), DEFAULT_UPSTREAM), Slashes);
    case EgressProxy =>
      StrOneLine(env, KeyOf(EgressProxy), "");
      TrimExact(GetStr(env, KeyOf(EgressProxy), ""), Spaces);
    case FingerprintProfile => StrOneLine(env, KeyOf(FingerprintProfile), "auto");
    case FingerprintNodeVersion => StrOneLine(env, KeyOf(FingerprintNodeVersion), "");
    case U1S1Version => StrOneLine(env, KeyOf(U1S1Version), "1.8.1");
    case BarkKey => StrOneLine(env, KeyOf(BarkKey), "");
    case LogLevel => StrOneLine(env, KeyOf(LogLevel), "info");
    case Port => ItoaPlain(SettingsOf(env).port);
    case SiteFeedCheckHours => ItoaPlain(SettingsOf(env).siteFeedCheckHours);
    case _ =>
  }

  /** The file says of every field what was written of it. */
  ghost predicate Carries(env: Env, s: Settings) {
    forall n: Name :: KeyOf(n) in env && env[KeyOf(n)] == Unquoted(FieldOf(s, n))
  }

  lemma FieldCarried(env: Env, s: Settings, n: Name)
    requires Carries(env, s) && AllOneLine(s)
    ensures KeyOf(n) in env && env[KeyOf(n)] == Unquoted(FieldOf(s, n)) && NEWLINE !in FieldOf(s, n)
  {
  }

  /** What normal form asks of one field. */
  predicate NormalField(s: Settings, n: Name) {
    match n
    case Host => Plain(s.host)
    case AdminPassword => CleanValue(s.adminPassword)
    case UpstreamBaseUrl => Plain(s.upstreamBaseUrl) && s.upstreamBaseUrl[|s.upstreamBaseUrl| - 1] != '/'
    case EgressProxy => CleanValue(s.egressProxyUrl)
    case FingerprintProfile => Plain(s.fingerprintProfile)
    case FingerprintNodeVersion => CleanValue(s.fingerprintNodeVersion)
    case U1S1Version => Plain(s.u1s1Version)
    case BarkKey => CleanValue(s.barkKey)
    case LogLevel => Plain(s.logLevel)
    case _ => true
  }

  /** The field of a file's settings that has this name, as text. */
  function ReadField(env: Env, n: Name): string {
    match n
    case Host => GetStr(env, KeyOf(n), "127.0.0.1")
    case Port => Itoa(GetInt(env, KeyOf(n), 8080))
    case UpstreamBaseUrl => TrimRight(GetStr(env, KeyOf(n), DEFAULT_UPSTREAM), Slashes)
    case EgressProxy => Trim(GetStr(env, KeyOf(n), ""), Spaces)
    case FingerprintProfile => GetStr(env, KeyOf(n), "auto")
    case U1S1Version => GetStr(env, KeyOf(n), "1.8.1")
    case SiteFeedCheckHours => Itoa(GetInt(env, KeyOf(n), 24))
    case LogLevel => GetStr(env, KeyOf(n), "info")
    case LogColor => BoolStr(GetBool(env, KeyOf(n), true))
    case Debug => BoolStr(GetBool(env, KeyOf(n), false))
    case QuotaAutoRefresh => BoolStr(GetBool(env, KeyOf(n), true))
    case _ => GetStr(env, KeyOf(n), "")
  }

  predicate IsText(n: Name) {
    || n.Host? || n.AdminPassword? || n.FingerprintProfile? || n.FingerprintNodeVersion? || n.U1S1Version?
    || n.BarkKey? || n.LogLevel?
  }

  lemma FieldComesBack(env: Env, s: Settings, n: Name)
    requires KeyOf(n) in env && env[KeyOf(n)] == Unquoted(FieldOf(s, n)) && NEWLINE !in FieldOf(s, n)
    ensures ReadField(env, n) == FieldOf(s, n) <==> NormalField(s, n)
  {
    match n
    case Port => IntComesBack(env, KeyOf(n), s.port, 8080);
    case UpstreamBaseUrl => UrlComesBack(env, KeyOf(n), s.upstreamBaseUrl);
    case EgressProxy => ProxyComesBack(env, KeyOf(n), s.egressProxyUrl);
    case SiteFeedCheckHours => IntComesBack(env, KeyOf(n), s.siteFeedCheckHours, 24);
    case LogColor => BoolComesBack(env, KeyOf(n), s.logColor, true);
    case Debug => BoolComesBack(env, KeyOf(n), s.debug, false);
    case QuotaAutoRefresh => BoolComesBack(env, KeyOf(n), s.quotaAutoRefresh, true);
    case _ => TextComesBack(env, s, n);
  }

  lemma TextComesBack(env: Env, s: Settings, n: Name)
    requires IsText(n) && KeyOf(n) in env && env[KeyOf(n)] == Unquoted(FieldOf(s, n)) && NEWLINE !in FieldOf(s, n)
    ensures ReadField(env, n) == FieldOf(s, n) <==> NormalField(s, n)
  {
    match n
    case Host => StrComesBack(env, KeyOf(n), s.host, "127.0.0.1");
    case FingerprintProfile => StrComesBack(env, KeyOf(n), s.fingerprintProfile, "auto");
    case U1S1Version => StrComesBack(env, KeyOf(n), s.u1s1Version, "1.8.1");
    case LogLevel => StrComesBack(env, KeyOf(n), s.logLevel, "info");
    case AdminPassword => StrComesBack(env, KeyOf(n), s.adminPassword, "");
    case FingerprintNodeVersion => StrComesBack(env, KeyOf(n), s.fingerprintNodeVersion, "");
    case BarkKey => StrComesBack(env, KeyOf(n), s.barkKey, "");
  }

  /** A file's settings are the fields read from it. */
  lemma SettingsAreFields(env: Env, n: Name)
    ensures FieldOf(SettingsOf(env), n) == ReadField(env, n)
  {
  }

  /** Settings whose fields have the same texts differ in FirstRun at most. */
  lemma SameFields(r: Settings, s: Settings)
    requires !r.firstRun && forall n: Name :: FieldOf(r, n) == FieldOf(s, n)
    ensures r == s.(firstRun := false)
  {
    assert FieldOf(r, Host) == FieldOf(s, Host);
    assert FieldOf(r, AdminPassword) == FieldOf(s, AdminPassword);
    assert FieldOf(r, UpstreamBaseUrl) == FieldOf(s, UpstreamBaseUrl);
    assert FieldOf(r, EgressProxy) == FieldOf(s, EgressProxy);
    assert FieldOf(r, FingerprintProfile) == FieldOf(s, FingerprintProfile);
    assert FieldOf(r, FingerprintNodeVersion) == FieldOf(s, FingerprintNodeVersion);
    assert FieldOf(r, U1S1Version) == FieldOf(s, U1S1Version);
    assert FieldOf(r, BarkKey) == FieldOf(s, BarkKey);
    assert FieldOf(r, LogLevel) == FieldOf(s, LogLevel);
    SameNumber(r, s, Port, r.port, s.port);
    SameNumber(r, s, SiteFeedCheckHours, r.siteFeedCheckHours, s.siteFeedCheckHours);
    SameFlag(r, s, LogColor, r.logColor, s.logColor);
    SameFlag(r, s, Debug, r.debug, s.debug);
    SameFlag(r, s, QuotaAutoRefresh, r.quotaAutoRefresh, s.quotaAutoRefresh);
  }

  lemma SameNumber(r: Settings, s: Settings, n: Name, x: Int64, y: Int64)
    requires FieldOf(r, n) == FieldOf(s, n) && FieldOf(r, n) == Itoa(x) && FieldOf(s, n) == Itoa(y)
    ensures x == y
  {
    AtoiOfItoa(x);
    AtoiOfItoa(y);
  }

  lemma SameFlag(r: Settings, s: Settings, n: Name, x: bool, y: bool)
    requires FieldOf(r, n) == FieldOf(s, n) && FieldOf(r, n) == BoolStr(x) && FieldOf(s, n) == BoolStr(y)
    ensures x == y
  {
    assert |BoolStr(true)| == 4 && |BoolStr(false)| == 5;
  }

  lemma NormalFields(s: Settings)
    ensures Normal(s) <==> forall n: Name :: NormalField(s, n)
  {
    if forall n: Name :: NormalField(s, n) {
      assert NormalField(s, Host) && NormalField(s, AdminPassword) && NormalField(s, UpstreamBaseUrl);
      assert NormalField(s, EgressProxy) && NormalField(s, FingerprintProfile);
      assert NormalField(s, FingerprintNodeVersion) && NormalField(s, U1S1Version);
      assert NormalField(s, BarkKey) && NormalField(s, LogLevel);
    }
  }

  /** The environment replaces this field of a file's settings. */
  predicate Replaced(os: OsEnv, n: Name) {
    match n
    case Host => os.host != ""
    case Port => os.port != "" && Atoi(os.port).Some?
    case AdminPassword => os.adminPassword != ""
    case _ => false
  }

  /** What the environment says of a field it replaces. */
  function Replacement(os: OsEnv, n: Name): string
    requires Replaced(os, n)
  {
    match n
    case Host => os.host
    case Port => Itoa(Atoi(os.port).value)
    case AdminPassword => os.adminPassword
  }

  /** Each field the environment replaces is replaced by what it was; every other is in normal form. */
  ghost predicate Survives(s: Settings, os: OsEnv) {
    forall n: Name :: if Replaced(os, n) then Replacement(os, n) == FieldOf(s, n) else NormalField(s, n)
  }

  lemma NothingReplaced(s: Settings)
    ensures Survives(s, OsEnv("", "", "")) <==> Normal(s)
  {
    var none := OsEnv("", "", "");
    forall n: Name
      ensures !Replaced(none, n)
    {
    }
    NormalFields(s);
  }

  lemma ReplacedField(s: Settings, os: OsEnv, n: Name)
    ensures FieldOf(ApplyOsEnv(s, os), n) == if Replaced(os, n) then Replacement(os, n) else FieldOf(s, n)
  {
  }

  lemma SettingsComeBack(env: Env, s: Settings, os: OsEnv)
    requires Carries(env, s) && AllOneLine(s)
    ensures ApplyOsEnv(SettingsOf(env), os) == s.(firstRun := false) <==> Survives(s, os)
  {
    var r := ApplyOsEnv(SettingsOf(env), os);
    forall n: Name
      ensures FieldOf(r, n) == FieldOf(s, n)
              <==> if Replaced(os, n) then Replacement(os, n) == FieldOf(s, n) else NormalField(s, n)
    {
      FieldCarried(env, s, n);
      FieldComesBack(env, s, n);
      SettingsAreFields(env, n);
      ReplacedField(SettingsOf(env), os, n);
    }
    if Survives(s, os) {
      SameFields(r, s);
    } else if r == s.(firstRun := false) {
      forall n: Name
        ensures FieldOf(r, n) == FieldOf(s, n)
      {
        SameField(r, s, n);
      }
    }
  }

  lemma SameField(r: Settings, s: Settings, n: Name)
    requires r == s.(firstRun := false)
    ensures FieldOf(r, n) == FieldOf(s, n)
  {
  }

  lemma WrittenCarries(lines: seq<string>, s: Settings, order: seq<string>)
    requires OneLines(lines) && Missing(lines, PatchableFields(s), order) && AllOneLine(s)
    ensures Carries(ReadLines(Split(Written(lines, PatchableFields(s), order))), s)
  {
    var patch := PatchableFields(s);
    PatchHoldsAllFields(s);
    forall k | k in patch
      ensures CleanKey(k) && OneLine(patch[k])
    {
      var n: Name :| k == KeyOf(n);
      KeysClean(n);
    }
    WrittenReads(lines, patch, order);
  }

  /** Writing settings out and reading them back, whatever else the file holds, in whatever order keys are added and
      under whatever environment, gives the same settings exactly when the environment says no different and the rest
      is in normal form: FirstRun is not written. */
  lemma SettingsRoundTrip(lines: seq<string>, s: Settings, order: seq<string>, os: OsEnv)
    requires OneLines(lines) && Missing(lines, PatchableFields(s), order)
    requires OneLine(os.host) && OneLine(os.adminPassword)
    ensures var r := ApplyOsEnv(SettingsOf(ReadLines(Split(Written(lines, PatchableFields(s), order)))), os);
      r == s.(firstRun := false) <==> Survives(s, os)
  {
    var content := Written(lines, PatchableFields(s), order);
    var env := ReadLines(Split(content));
    var r := ApplyOsEnv(SettingsOf(env), os);
    ContentIsReadable(content);
    ReplacedOneLine(env, os);
    if r == s.(firstRun := false) {
      SameFieldsOneLine(r, s);
    } else if Survives(s, os) {
      SurvivorIsOneLine(s, os);
    }
    if AllOneLine(s) {
      WrittenCarries(lines, s, order);
      SettingsComeBack(env, s, os);
    }
  }

  lemma ReplacedOneLine(env: Env, os: OsEnv)
    requires Readable(env) && OneLine(os.host) && OneLine(os.adminPassword)
    ensures AllOneLine(ApplyOsEnv(SettingsOf(env), os))
  {
    forall n: Name
      ensures NEWLINE !in FieldOf(ApplyOsEnv(SettingsOf(env), os), n)
    {
      ReplacementOneLine(os, n);
      FieldOneLine(env, n);
      ReplacedField(SettingsOf(env), os, n);
    }
  }

  lemma ReplacementOneLine(os: OsEnv, n: Name)
    requires OneLine(os.host) && OneLine(os.adminPassword)
    ensures Replaced(os, n) ==> NEWLINE !in Replacement(os, n)
  {
    if n == Port && Replaced(os, n) {
      ItoaPlain(Atoi(os.port).value);
    }
  }

  lemma SameFieldsOneLine(r: Settings, s: Settings)
    requires AllOneLine(r) && r == s.(firstRun := false)
    ensures AllOneLine(s)
  {
    forall n: Name
      ensures NEWLINE !in FieldOf(s, n)
    {
      SameField(r, s, n);
    }
  }

  lemma NormalFieldOneLine(s: Settings, n: Name)
    requires NormalField(s, n)
    ensures NEWLINE !in FieldOf(s, n)
  {
    ItoaPlain(s.port);
    ItoaPlain(s.siteFeedCheckHours);
  }

  lemma SurvivorIsOneLine(s: Settings, os: OsEnv)
    requires Survives(s, os) && OneLine(os.host) && OneLine(os.adminPassword)
    ensures AllOneLine(s)
  {
    forall n: Name
      ensures NEWLINE !in FieldOf(s, n)
    {
      if Replaced(os, n) {
        ReplacementOneLine(os, n);
      } else {
        NormalFieldOneLine(s, n);
      }
    }
  }

  // ---------------------------------------------------------------- Save

  /** Save: patch the file, read it back, apply the environment. Saved settings come back exactly when they survive. */
  method Save(dir: Dir, patch: Env, os: OsEnv) returns (s: Settings, ghost order: seq<string>)
    modifies dir
    ensures Missing(LinesOf(old(dir.file)), patch, order)
    ensures dir.file == Some(Written(LinesOf(old(dir.file)), patch, order))
    ensures s == ApplyOsEnv(SettingsOf(ReadLines(Split(dir.file.value))), os)
    ensures forall given | patch == PatchableFields(given) && OneLine(os.host) && OneLine(os.adminPassword) ::
      s == given.(firstRun := false) <==> Survives(given, os)
  {
    ghost var lines := LinesOf(dir.file);
    LinesAreOneLine(dir.file);
    var env;
    env, order := dir.Save(patch);
    s := ApplyOsEnv(SettingsOf(env), os);
    forall given | patch == PatchableFields(given) && OneLine(os.host) && OneLine(os.adminPassword)
      ensures s == given.(firstRun := false) <==> Survives(given, os)
    {
      SettingsRoundTrip(lines, given, order, os);
    }
  }

  lemma LinesAreOneLine(file: Option<string>)
    ensures OneLines(LinesOf(file))
  {
    if file.Some? {
      SplitIntoLines(file.value);
      forall i | 0 <= i < |Split(file.value)|
        ensures OneLine(Split(file.value)[i])
      {
        assert Split(file.value)[i] in Split(file.value);
      }
    }
  }
}
