/** The declarative parts of database/models.py the core depends on: the connection settings
    with their defaults, the connection string built from them, and a new scraping-session
    row with its column defaults. */
module DbModels {
  import opened Basics
  import opened Records

  // ------------------------------------------------------------ configuration

  /** `DatabaseConfig`: every field a string, as read from the environment. */
  datatype DatabaseConfig = DatabaseConfig(
    host: string, port: string, database: string, username: string, password: string, dbType: string)

  /** `os.getenv(key, default)`: a variable that is set wins, even when it is empty. */
  function Getenv(env: map<string, string>, key: string, default: string): (v: string)
    ensures key in env ==> v == env[key]
    ensures key !in env ==> v == default
  {
    if key in env then env[key] else default
  }

  /** `DatabaseConfig.__init__` over the environment `env`. */
  function ConfigFrom(env: map<string, string>): DatabaseConfig {
    DatabaseConfig(
      Getenv(env, "DB_HOST", "localhost"),
      Getenv(env, "DB_PORT", "5432"),
      Getenv(env, "DB_NAME", "real_estate_pakistan"),
      Getenv(env, "DB_USER", "postgres"),
      Getenv(env, "DB_PASSWORD", ""),
      Getenv(env, "DB_TYPE", "postgresql"))
  }

  /** With nothing set, the configuration is a local PostgreSQL database
      `real_estate_pakistan` on port 5432 for user `postgres` with an empty password; each
      variable that is set replaces exactly its own field. */
  lemma {:induction false} ConfigDefaults(env: map<string, string>, host: string)
    requires "DB_HOST" !in env && "DB_PORT" !in env && "DB_NAME" !in env
    requires "DB_USER" !in env && "DB_PASSWORD" !in env && "DB_TYPE" !in env
    ensures var c := ConfigFrom(env);
      c.host == "localhost" && c.port == "5432" && c.database == "real_estate_pakistan"
      && c.username == "postgres" && c.password == "" && c.dbType == "postgresql"
    ensures ConfigFrom(env["DB_HOST" := host]) == ConfigFrom(env).(host := host)
  {
  }

  /** The SQLAlchemy URL for the configured database type: PostgreSQL through psycopg2,
      MySQL through mysql-connector, SQLite naming only the database file; any other type is a
      ValueError. */
  function ConnectionString(c: DatabaseConfig): (r: Result<string, PyError>)
    ensures r.Err? <==> c.dbType !in {"postgresql", "mysql", "sqlite"}
    ensures r.Err? ==> r.error == ValueError
  {
    if c.dbType == "postgresql" then Ok("postgresql+psycopg2://" + ServerPart(c) + c.database)
    else if c.dbType == "mysql" then Ok("mysql+mysqlconnector://" + ServerPart(c) + c.database)
    else if c.dbType == "sqlite" then Ok("sqlite:///" + c.database)
    else Err(ValueError)
  }

  /** The `user:password@host:port/` part of a server URL. */
  function ServerPart(c: DatabaseConfig): string {
    c.username + ":" + c.password + "@" + c.host + ":" + c.port + "/"
  }

  /** The URL names the driver of the configured type and ends with the database name. */
  lemma {:induction false} ConnectionStringParts(c: DatabaseConfig, scheme: string)
    requires ConnectionString(c).Ok?
    requires scheme == (if c.dbType == "postgresql" then "postgresql+psycopg2://"
                        else if c.dbType == "mysql" then "mysql+mysqlconnector://" else "sqlite:///")
    ensures var url := ConnectionString(c).value;
      |url| >= |scheme| + |c.database| && url[..|scheme|] == scheme
      && url[|url| - |c.database|..] == c.database
  {
    var url := ConnectionString(c).value;
    if c.dbType == "sqlite" {
      assert url == scheme + c.database;
      Framed(scheme, "", c.database);
    } else {
      Framed(scheme, ServerPart(c), c.database);
    }
  }

  lemma {:induction false} Framed(a: string, m: string, b: string)
    ensures var s := a + m + b;
      |s| >= |a| + |b| && s[..|a|] == a && s[|s| - |b|..] == b
  {
  }

  /** A SQLite URL depends on the database field alone. */
  lemma {:induction false} SqliteIgnoresServer(c: DatabaseConfig, d: DatabaseConfig)
    requires c.dbType == "sqlite" && d.dbType == "sqlite" && c.database == d.database
    ensures ConnectionString(c) == ConnectionString(d)
  {
  }

  /** The URL tells the database type: two configurations with the same URL have the same
      type. */
  lemma {:induction false} ConnectionStringTellsType(c: DatabaseConfig, d: DatabaseConfig)
    requires ConnectionString(c).Ok? && ConnectionString(d).Ok?
    requires ConnectionString(c) == ConnectionString(d)
    ensures c.dbType == d.dbType
  {
    var u := ConnectionString(c).value;
    assert u[0] == (if c.dbType == "postgresql" then 'p' else if c.dbType == "mysql" then 'm' else 's');
    assert u[0] == (if d.dbType == "postgresql" then 'p' else if d.dbType == "mysql" then 'm' else 's');
  }

  // --------------------------------------------------------- scraping sessions

  /** A `scraping_sessions` row. */
  datatype SessionRow = SessionRow(
    id: nat, website: string, startTime: int, endTime: Option<int>,
    propertiesScraped: int, propertiesSaved: int, errorsCount: int, status: string, logFile: Option<string>)

  /** A new session for `website` started at `now`, with every other column at its default. */
  function NewSession(id: nat, website: string, now: int): (s: SessionRow)
    ensures s.id == id && s.website == website && s.startTime == now
    ensures s.status == "running" && s.endTime.None? && s.logFile.None?
    ensures s.propertiesScraped == 0 && s.propertiesSaved == 0 && s.errorsCount == 0
  {
    SessionRow(id, website, now, None, 0, 0, 0, "running", None)
  }
}
