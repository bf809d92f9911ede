/** The service package: the four providers of service types and what each of them
    gives the program that conduit runs. */
module Services {
  import opened GoStrings
  import opened ServiceCredentials
  import opened Outside

  datatype Option<+T> = None | Some(value: T)

  datatype Kind = MySQL | Postgres | Redis | InfluxDB

  function KnownClients(kind: Kind): seq<string> {
    match kind
    case MySQL => ["mysql", "mysqldump"]
    case Postgres => ["psql", "pg_dump"]
    case Redis => ["redis-cli"]
    case InfluxDB => ["influx", "chronograf", "telegraf", "influx_inspect", "inch"]
  }

  function NonTLSClients(kind: Kind): seq<string> {
    match kind
    case Redis => ["redis-cli"]
    case _ => []
  }

  /** The answers `IsTLSEnabled(creds)` of a provider can give. */
  ghost predicate MayBeTLSService(kind: Kind, m: Bindings, enabled: bool) {
    match kind
    case InfluxDB => enabled == false
    case Redis => exists general, uri :: MayBeTLS(m, general) && MayGet(m, URI_KEYS, uri)
                                         && enabled == (general || HasPrefix(uri, "rediss"))
    case _ => MayBeTLS(m, enabled)
  }

  /** For redis an address that starts with "rediss" is TLS as well, influxdb never is. */
  lemma ServiceTLSMeaning(kind: Kind, m: Bindings, enabled: bool)
    ensures MayBeTLSService(kind, m, enabled) <==>
      match kind
      case InfluxDB => !enabled
      case Redis => exists general, uri :: MayBeTLS(m, general) && MayGet(m, ["uri", "url"], uri)
                                           && (enabled <==> general || (|uri| >= 6 && uri[..6] == "rediss"))
      case _ => MayBeTLS(m, enabled)
  {
    hide MayBeTLS, MayGet;
    if kind == Redis {
      forall uri: string ensures HasPrefix(uri, "rediss") <==> |uri| >= 6 && uri[..6] == "rediss" {
        assert |"rediss"| == 6;
      }
      if general, uri :| MayBeTLS(m, general) && MayGet(m, URI_KEYS, uri)
                         && enabled == (general || HasPrefix(uri, "rediss")) {
        assert MayGet(m, ["uri", "url"], uri);
      }
      if general, uri :| MayBeTLS(m, general) && MayGet(m, ["uri", "url"], uri)
                         && (enabled <==> general || (|uri| >= 6 && uri[..6] == "rediss")) {
        assert MayGet(m, URI_KEYS, uri);
      }
    }
  }

  /** A provider as `initServiceBindings` finds it. `workDir` is the directory made
      for MySQL, "" while there is none. */
  datatype ProviderState = ProviderState(kind: Kind, serviceCnt: nat, workDir: string)

  /** How one section of my.cnf logs in. */
  datatype Login = Login(user: string, password: string, host: string) {

    function Text(port: int): string {
      Line("user = " + user) + Line("password = " + password) + Line("host = " + host) + Line("port = " + Decimal(port))
    }
  }

  function Line(text: string): string {
    text + "\n"
  }

  /** my.cnf, with the port in both of its sections. */
  function MyCnf(mysql: Login, database: string, dump: Login, port: int): string {
    Line("[mysql]") + mysql.Text(port) + Line("database = " + database) + Line("[mysqldump]") + dump.Text(port)
  }

  ghost predicate MayLogin(m: Bindings, login: Login) {
    MayGet(m, USERNAME_KEYS, login.user) && MayGet(m, PASSWORD_KEYS, login.password) && MayGet(m, HOST_KEYS, login.host)
  }

  ghost predicate MayBeMyCnf(m: Bindings, text: string) {
    exists mysql, database, dump ::
      MayLogin(m, mysql) && MayGet(m, DATABASE_KEYS, database) && MayLogin(m, dump)
      && text == MyCnf(mysql, database, dump, PortOf(m))
  }

  /** The calls that make a directory and, if that works, write my.cnf for these
      credentials into it; `ok` if the file was written. */
  ghost predicate WritesMyCnf(m: Bindings, es: seq<Event>, dir: string, ok: bool) {
    if dir == "" then es == [Did(MakeDir(""), false)] && !ok
    else exists text :: MayBeMyCnf(m, text)
                        && es == [Did(MakeDir(dir), true), Did(WriteFile(dir, "my.cnf", text), ok)]
  }

  function InfluxVars(user: string, password: string): map<string, string> {
    map["INFLUX_USERNAME" := user, "INFLUX_PASSWORD" := password]
  }

  function PostgresVars(database: string, host: string, port: int, user: string,
                        password: string): map<string, string> {
    map["PGDATABASE" := database, "PGHOST" := host, "PGPORT" := Decimal(port),
        "PGUSER" := user, "PGPASSWORD" := password]
  }

  ghost predicate MayBeInfluxEnv(m: Bindings, writes: map<string, string>) {
    exists user, password ::
      && MayGet(m, USERNAME_KEYS, user) && MayGet(m, PASSWORD_KEYS, password)
      && writes == InfluxVars(user, password)
  }

  ghost predicate MayBePostgresEnv(m: Bindings, writes: map<string, string>) {
    exists database, host, user, password ::
      && MayGet(m, DATABASE_KEYS, database) && MayGet(m, HOST_KEYS, host)
      && MayGet(m, USERNAME_KEYS, user) && MayGet(m, PASSWORD_KEYS, password)
      && writes == PostgresVars(database, host, PortOf(m), user, password)
  }

  /** The variables `InitEnv(creds, env)` can set. */
  ghost predicate MayInitEnv(p: ProviderState, m: Bindings, writes: map<string, string>) {
    match p.kind
    case Redis => writes == map[]
    case InfluxDB => MayBeInfluxEnv(m, writes)
    case Postgres => if p.serviceCnt > 0 then writes == map[] else MayBePostgresEnv(m, writes)
    case MySQL =>
      writes == map[] || (p.serviceCnt == 0 && exists dir :: writes == map["MYSQL_HOME" := dir])
  }

  /** The arguments `AdditionalProgramArgs` can add, given the credentials of
      the first kept instance of the type. */
  ghost predicate MayAddArgs(kind: Kind, first: Option<Bindings>, args: seq<string>) {
    match kind
    case Redis =>
      if first.None? then args == []
      else exists host, password ::
        && MayGet(first.value, HOST_KEYS, host) && MayGet(first.value, PASSWORD_KEYS, password)
        && args == ["-h", host, "-p", Decimal(PortOf(first.value)), "-a", password]
    case InfluxDB =>
      if first.None? then args == []
      else exists host, database ::
        && MayGet(first.value, HOST_KEYS, host) && MayGet(first.value, DATABASE_KEYS, database)
        && args == ["-host", host, "-port", Decimal(PortOf(first.value)), "-database", database, "-ssl", "-unsafeSsl"]
    case _ => args == []
  }

  /** A binding of the app: the credentials are shared with whoever holds it. */
  datatype VcapService = VcapService(name: string, instanceName: string, credentials: Credentials)

  class Provider {
    const kind: Kind
    var serviceCnt: nat
    var workDir: string

    constructor (kind: Kind)
      ensures this.kind == kind && serviceCnt == 0 && workDir == ""
    {
      this.kind := kind;
      serviceCnt, workDir := 0, "";
    }

    function State(): ProviderState
      reads this
    {
      ProviderState(kind, serviceCnt, workDir)
    }

    method IsTLSEnabled(creds: Credentials) returns (enabled: bool)
      ensures MayBeTLSService(kind, creds.entries, enabled)
    {
      if kind == InfluxDB {
        return false;
      }
      enabled := creds.IsTLSEnabled();
      if kind == Redis {
        var uri := creds.Get(URI_KEYS);
        enabled := enabled || HasPrefix(uri, "rediss");
      }
    }

    /** Only the first service sets the environment of Postgres and MySQL. For MySQL
        my.cnf is written, and MYSQL_HOME is set exactly if that worked; nothing else
        is done outside. */
    method InitEnv(creds: Credentials, world: World)
      returns (writes: map<string, string>, ok: bool, ghost es: seq<Event>)
      modifies this, world
      ensures MayInitEnv(old(State()), creds.entries, writes) && world.trace == old(world.trace) + es
      ensures if kind == MySQL && old(serviceCnt) == 0
              then WritesMyCnf(creds.entries, es, workDir, ok)
                   && writes == if ok then map["MYSQL_HOME" := workDir] else map[]
              else es == [] && ok && workDir == old(workDir)
      ensures serviceCnt == old(serviceCnt) + if ok && old(serviceCnt) == 0 && kind in {Postgres, MySQL} then 1 else 0
      ensures unchanged(creds)
    {
      hide MayGet, PostgresVars, InfluxVars, MayBeMyCnf;
      ok, es := true, [];
      match kind
      case Redis =>
        writes := map[];
      case InfluxDB =>
        var user := creds.Get(USERNAME_KEYS);
        var password := creds.Get(PASSWORD_KEYS);
        writes := InfluxVars(user, password);
      case Postgres =>
        if serviceCnt > 0 {
          writes := map[];
          return;
        }
        var database := creds.Get(DATABASE_KEYS);
        var host := creds.Host();
        var port := creds.Port();
        var user := creds.Get(USERNAME_KEYS);
        var password := creds.Get(PASSWORD_KEYS);
        serviceCnt := serviceCnt + 1;
        writes := PostgresVars(database, host, port, user, password);
      case MySQL =>
        writes := map[];
        if serviceCnt > 0 {
          return;
        }
        workDir, ok := world.TempDir();
        es := [Did(MakeDir(workDir), ok)];
        if !ok {
          return;
        }
        var text := MyCnfFor(creds);
        ok := world.WriteFile(workDir, "my.cnf", text);
        es := es + [Did(WriteFile(workDir, "my.cnf", text), ok)];
        if !ok {
          return;
        }
        writes := map["MYSQL_HOME" := workDir];
        serviceCnt := serviceCnt + 1;
    }

    method MyCnfFor(creds: Credentials) returns (text: string)
      ensures MayBeMyCnf(creds.entries, text)
    {
      hide MayGet;
      var user := creds.Get(USERNAME_KEYS);
      var password := creds.Get(PASSWORD_KEYS);
      var host := creds.Host();
      var port := creds.Port();
      var database := creds.Get(DATABASE_KEYS);
      var mysql := Login(user, password, host);
      user := creds.Get(USERNAME_KEYS);
      password := creds.Get(PASSWORD_KEYS);
      host := creds.Host();
      text := MyCnf(mysql, database, Login(user, password, host), port);
      assert MayLogin(creds.entries, mysql) && MayLogin(creds.entries, Login(user, password, host));
    }

    method AdditionalProgramArgs(services: seq<VcapService>) returns (args: seq<string>)
      ensures MayAddArgs(kind, if services == [] then None else Some(services[0].credentials.entries), args)
    {
      hide MayGet, Decimal, PortOf;
      if services == [] || kind == MySQL || kind == Postgres {
        return [];
      }
      var creds := services[0].credentials;
      var host := creds.Host();
      var port := creds.Port();
      if kind == Redis {
        var password := creds.Get(PASSWORD_KEYS);
        return ["-h", host, "-p", Decimal(port), "-a", password];
      }
      var database := creds.Get(DATABASE_KEYS);
      return ["-host", host, "-port", Decimal(port), "-database", database, "-ssl", "-unsafeSsl"];
    }

    /** Removes the directory made for MySQL, if there is one. */
    method Teardown(world: World) returns (ok: bool)
      modifies world
      ensures if kind == MySQL && workDir != "" then world.trace == old(world.trace) + [Did(RemoveAll(workDir), ok)]
              else ok && world.trace == old(world.trace)
    {
      ok := true;
      if kind == MySQL && workDir != "" {
        ok := world.RemoveAll(workDir);
      }
    }
  }

  /** No program is claimed by two kinds of service. */
  lemma ClientsAreDisjoint(a: Kind, b: Kind, program: string)
    requires program in KnownClients(a) && program in KnownClients(b)
    ensures a == b
  {
  }
}
