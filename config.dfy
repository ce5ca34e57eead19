/**
 * The configuration records, their default values and the derived
 * addresses and environment tests (internal/config/config.go). Loading the
 * configuration from files and the environment is not modelled.
 */
module Config {

  import opened Wrappers
  import opened GoTime
  import opened GoStrings

  datatype Config = Config(
    server: ServerConfig,
    database: DatabaseConfig,
    redis: RedisConfig,
    game: GameConfig,
    webSocket: WebSocketConfig,
    logging: LoggingConfig,
    environment: string)

  datatype ServerConfig = ServerConfig(port: string, host: string, mode: string, corsOrigins: string)

  datatype DatabaseConfig = DatabaseConfig(
    host: string,
    port: string,
    name: string,
    user: string,
    password: string,
    sslMode: string,
    maxConnections: Int64,
    maxIdle: Int64)

  datatype RedisConfig = RedisConfig(host: string, port: string, password: string, db: Int64, maxConnections: Int64)

  datatype GameConfig = GameConfig(gridSize: Int64, playerCooldownSeconds: Int64, maxConcurrentPlayers: Int64)

  datatype WebSocketConfig = WebSocketConfig(readBufferSize: Int64, writeBufferSize: Int64, checkOrigin: bool)

  datatype LoggingConfig = LoggingConfig(level: string, format: string)

  /** The values `setDefaults` registers for every key. */
  const Defaults: Config := Config(
    ServerConfig("8080", "localhost", "development", "http://localhost:4200"),
    DatabaseConfig("localhost", "5432", "siege_game", "siege_user", "siege_password", "disable", 20, 5),
    RedisConfig("localhost", "6379", "", 0, 10),
    GameConfig(100, 5, 1000),
    WebSocketConfig(1024, 1024, false),
    LoggingConfig("debug", "json"),
    "development")

  /** `GetDatabaseConnectionString()`: the PostgreSQL key/value connection string. */
  function GetDatabaseConnectionString(c: DatabaseConfig): string
  {
    "host=" + c.host + " port=" + c.port + " user=" + c.user +
    " password=" + c.password + " dbname=" + c.name + " sslmode=" + c.sslMode
  }

  /** `GetRedisAddress()`: `host:port`. */
  function GetRedisAddress(c: RedisConfig): string
  {
    c.host + ":" + c.port
  }

  /** `GetServerAddress()`: `host:port`. */
  function GetServerAddress(c: ServerConfig): string
  {
    c.host + ":" + c.port
  }

  /** `IsProduction()`. */
  predicate IsProduction(c: Config)
  {
    c.environment == "production"
  }

  /** `IsDevelopment()`. */
  predicate IsDevelopment(c: Config)
  {
    c.environment == "development"
  }

  /**
   * Reads a connection string back as a plain split: its space-separated words,
   * each cut at its first `=`. PostgreSQL's keyword/value syntax also allows
   * spaces around `=` and quoted values; on values that need no quoting
   * (`PlainValue`) the two readings agree.
   */
  function ConnectionStringPairs(s: string): seq<Option<(string, string)>>
  {
    var words := Split(s, ' ');
    seq(|words|, k requires 0 <= k < |words| => Cut(words[k], '='))
  }

  /** The six `key=value` words of a connection string, in order. */
  function ConnectionWords(c: DatabaseConfig): seq<string>
  {
    ["host=" + c.host, "port=" + c.port, "user=" + c.user,
     "password=" + c.password, "dbname=" + c.name, "sslmode=" + c.sslMode]
  }

  /** Appending one more `key=value` word after a space. */
  lemma AppendWord(prefix: string, key: string, value: string)
    ensures prefix + ([' '] + key) + value == prefix + " " + (key + value)
  {
  }

  /** The formatted connection string is its words joined by single spaces. */
  lemma ConnectionStringIsJoin(c: DatabaseConfig)
    ensures GetDatabaseConnectionString(c) == Join(ConnectionWords(c), ' ')
  {
    var w := ConnectionWords(c);
    var s1 := "host=" + c.host;
    assert Join(w[..1], ' ') == s1;
    var s2 := s1 + " port=" + c.port;
    AppendWord(s1, "port=", c.port);
    JoinSnoc(w[..1], w[1], ' ');
    assert w[..2] == w[..1] + [w[1]];
    assert Join(w[..2], ' ') == s2;
    var s3 := s2 + " user=" + c.user;
    AppendWord(s2, "user=", c.user);
    JoinSnoc(w[..2], w[2], ' ');
    assert w[..3] == w[..2] + [w[2]];
    assert Join(w[..3], ' ') == s3;
    var s4 := s3 + " password=" + c.password;
    AppendWord(s3, "password=", c.password);
    JoinSnoc(w[..3], w[3], ' ');
    assert w[..4] == w[..3] + [w[3]];
    assert Join(w[..4], ' ') == s4;
    var s5 := s4 + " dbname=" + c.name;
    AppendWord(s4, "dbname=", c.name);
    JoinSnoc(w[..4], w[4], ' ');
    assert w[..5] == w[..4] + [w[4]];
    assert Join(w[..5], ' ') == s5;
    var s6 := s5 + " sslmode=" + c.sslMode;
    AppendWord(s5, "sslmode=", c.sslMode);
    JoinSnoc(w[..5], w[5], ' ');
    assert w == w[..5] + [w[5]];
    assert Join(w, ' ') == s6;
  }

  /** A word cut at its first `=`: the key, which has no `=`, and the value. */
  lemma WordPair(key: string, value: string)
    requires '=' !in key
    ensures Cut(key + "=" + value, '=') == Some((key, value))
  {
    assert key + "=" + value == key + ['='] + value;
    CutConcat(key, value, '=');
  }

  /** Reading back words joined by spaces, when no word has a space. */
  lemma PairsOfJoin(words: seq<string>)
    requires |words| >= 1
    requires forall k :: 0 <= k < |words| ==> ' ' !in words[k]
    ensures ConnectionStringPairs(Join(words, ' ')) == seq(|words|, k requires 0 <= k < |words| => Cut(words[k], '='))
  {
    SplitJoin(words, ' ');
  }

  /** The six settings a connection string is meant to carry, in order. */
  function ConnectionSettings(c: DatabaseConfig): seq<Option<(string, string)>>
  {
    [Some(("host", c.host)), Some(("port", c.port)), Some(("user", c.user)),
     Some(("password", c.password)), Some(("dbname", c.name)), Some(("sslmode", c.sslMode))]
  }

  /** Each word cuts at its first `=` into its key and its value. */
  lemma ConnectionWordsCut(c: DatabaseConfig, k: nat)
    requires k < 6
    ensures Cut(ConnectionWords(c)[k], '=') == ConnectionSettings(c)[k]
  {
    var w := ConnectionWords(c)[k];
    match k
    case 0 => assert w == "host" + "=" + c.host; WordPair("host", c.host);
    case 1 => assert w == "port" + "=" + c.port; WordPair("port", c.port);
    case 2 => assert w == "user" + "=" + c.user; WordPair("user", c.user);
    case 3 => assert w == "password" + "=" + c.password; WordPair("password", c.password);
    case 4 => assert w == "dbname" + "=" + c.name; WordPair("dbname", c.name);
    case 5 => assert w == "sslmode" + "=" + c.sslMode; WordPair("sslmode", c.sslMode);
  }

  /**
   * A value that PostgreSQL's keyword/value syntax takes as written without
   * quotes: not empty, and without white space, `'` or `\`.
   */
  predicate PlainValue(v: string)
  {
    v != [] && forall k :: 0 <= k < |v| ==> !IsSpace(v[k]) && v[k] != '\'' && v[k] != '\\'
  }

  /** A plain value has no space. */
  lemma PlainValueHasNoSpace(v: string)
    requires PlainValue(v)
    ensures ' ' !in v
  {
    forall k | 0 <= k < |v|
      ensures v[k] != ' '
    {
      assert !IsSpace(v[k]);
    }
  }

  /**
   * When every value is plain, the connection string reads back as the six
   * `key=value` settings host, port, user, password, dbname and sslmode, in
   * that order and with the configured values.
   */
  lemma ConnectionStringRoundTrip(c: DatabaseConfig)
    requires PlainValue(c.host) && PlainValue(c.port) && PlainValue(c.user)
    requires PlainValue(c.password) && PlainValue(c.name) && PlainValue(c.sslMode)
    ensures ConnectionStringPairs(GetDatabaseConnectionString(c)) == ConnectionSettings(c)
  {
    PlainValueHasNoSpace(c.host);
    PlainValueHasNoSpace(c.port);
    PlainValueHasNoSpace(c.user);
    PlainValueHasNoSpace(c.password);
    PlainValueHasNoSpace(c.name);
    PlainValueHasNoSpace(c.sslMode);
    var w := ConnectionWords(c);
    ConnectionStringIsJoin(c);
    assert ' ' !in w[0] && ' ' !in w[1] && ' ' !in w[2];
    assert ' ' !in w[3] && ' ' !in w[4] && ' ' !in w[5];
    PairsOfJoin(w);
    forall k | 0 <= k < 6
      ensures Cut(w[k], '=') == ConnectionSettings(c)[k]
    {
      ConnectionWordsCut(c, k);
    }
  }

  /** When the host has no colon, cutting the Redis address at its first colon gives back host and port. */
  lemma RedisAddressRoundTrip(c: RedisConfig)
    requires ':' !in c.host
    ensures Cut(GetRedisAddress(c), ':') == Some((c.host, c.port))
  {
    CutConcat(c.host, c.port, ':');
  }

  /** When the host has no colon, cutting the server address at its first colon gives back host and port. */
  lemma ServerAddressRoundTrip(c: ServerConfig)
    requires ':' !in c.host
    ensures Cut(GetServerAddress(c), ':') == Some((c.host, c.port))
  {
    CutConcat(c.host, c.port, ':');
  }

  /**
   * A host that contains a colon makes the Redis address ambiguous: its first
   * colon belongs to the host, so the address does not cut back into host and port.
   */
  lemma RedisAddressColonHost(c: RedisConfig)
    requires ':' in c.host
    ensures Cut(GetRedisAddress(c), ':') != Some((c.host, c.port))
  {
  }

  /**
   * A host that contains a colon makes the server address ambiguous: its first
   * colon belongs to the host, so the address does not cut back into host and port.
   */
  lemma ServerAddressColonHost(c: ServerConfig)
    requires ':' in c.host
    ensures Cut(GetServerAddress(c), ':') != Some((c.host, c.port))
  {
  }

  /** The IPv6 loopback host `::1`: the address cuts into an empty host and `:1:8080`. */
  lemma ServerAddressLoopbackIpv6()
    ensures Cut(GetServerAddress(ServerConfig("8080", "::1", "development", "")), ':')
         == Some(("", ":1:8080"))
  {
    assert GetServerAddress(ServerConfig("8080", "::1", "development", "")) == [':'] + ":1:8080";
  }

  /** No configuration is both production and development. */
  lemma NotBothEnvironments(c: Config)
    ensures !(IsProduction(c) && IsDevelopment(c))
  {
  }

  /** The default environment is development, not production. */
  lemma DefaultsAreDevelopment()
    ensures IsDevelopment(Defaults) && !IsProduction(Defaults)
  {
  }

  /** The game defaults: a 100 x 100 grid, a five-second cooldown, at most 1000 players. */
  lemma DefaultGameSettings()
    ensures Defaults.game.gridSize == 100
    ensures Defaults.game.playerCooldownSeconds == 5
    ensures Defaults.game.maxConcurrentPlayers == 1000
  {
  }

  /** The default CORS setting is one origin, without comma or surrounding white space. */
  lemma DefaultCorsOriginsIsOneOrigin()
    ensures Defaults.server.corsOrigins == "http://localhost:4200"
    ensures ',' !in Defaults.server.corsOrigins && Trimmed(Defaults.server.corsOrigins)
  {
    var origin := "http://localhost:4200";
    assert forall k | 0 <= k < |origin| :: origin[k] != ',';
    assert Defaults.server.corsOrigins == origin;
  }

  /** The addresses the defaults produce. */
  lemma DefaultAddresses()
    ensures GetServerAddress(Defaults.server) == "localhost:8080"
    ensures GetRedisAddress(Defaults.redis) == "localhost:6379"
  {
  }

  /** The default database settings need no quoting. */
  lemma DefaultDatabaseValuesArePlain()
    ensures PlainValue(Defaults.database.host) && PlainValue(Defaults.database.port)
    ensures PlainValue(Defaults.database.user) && PlainValue(Defaults.database.password)
    ensures PlainValue(Defaults.database.name) && PlainValue(Defaults.database.sslMode)
  {
    assert Defaults.database.host == "localhost" && PlainValue("localhost");
    assert Defaults.database.port == "5432" && PlainValue("5432");
    assert Defaults.database.user == "siege_user" && PlainValue("siege_user");
    assert Defaults.database.password == "siege_password" && PlainValue("siege_password");
    assert Defaults.database.name == "siege_game" && PlainValue("siege_game");
    assert Defaults.database.sslMode == "disable" && PlainValue("disable");
  }

  /** The default connection string carries the default database settings. */
  lemma DefaultConnectionString()
    ensures ConnectionStringPairs(GetDatabaseConnectionString(Defaults.database)) == [
      Some(("host", "localhost")), Some(("port", "5432")), Some(("user", "siege_user")),
      Some(("password", "siege_password")), Some(("dbname", "siege_game")), Some(("sslmode", "disable"))]
  {
    DefaultDatabaseValuesArePlain();
    ConnectionStringRoundTrip(Defaults.database);
  }
}
