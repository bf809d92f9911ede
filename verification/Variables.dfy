/** The environment of the program: which lookups it depends on, and that it is
    the same in all passes exactly if these have one answer each. */
module Variables {
  import opened GoStrings
  import opened ServiceCredentials
  import opened Services
  import opened Outside
  import opened Plan
  import opened PlanFacts
  import opened Determinism

  /** The environment of the program comes from the rewritten credentials of the
      binding it was set up for. */
  ghost predicate ClientSeen(c: Config, slots: seq<Slot>, seens: seq<Seen>, p: Pass, n: nat) {
    p.client.Some? ==>
      var i := p.client.value;
      i < n && i < |slots| && i < |seens| && i in p.after && slots[i].serviceType in c.providers
      && MayInitEnv(c.providers[slots[i].serviceType], p.after[i], seens[i].writes)
  }

  lemma {:induction false} ClientIsSeen(c: Config, names: seq<string>, port: int, env: map<string, string>,
                                        slots: seq<Slot>, seens: seq<Seen>, n: nat)
    requires n <= |slots| && n <= |seens| && AllSeen(c, Start(names, port, env), slots, seens, n)
    ensures ClientSeen(c, slots, seens, PassAfter(c, Start(names, port, env), slots, seens, n), n)
  {
    if n > 0 {
      ClientIsSeen(c, names, port, env, slots, seens, n - 1);
      var p := PassAfter(c, Start(names, port, env), slots, seens, n - 1);
      assert MaySee(c, p, slots[n - 1], seens[n - 1]);
      ClientSeenStep(c, slots, seens, p, n);
    }
  }

  lemma ClientSeenStep(c: Config, slots: seq<Slot>, seens: seq<Seen>, p: Pass, n: nat)
    requires 0 < n <= |slots| && n <= |seens|
    requires ClientSeen(c, slots, seens, p, n - 1) && MaySee(c, p, slots[n - 1], seens[n - 1])
    ensures ClientSeen(c, slots, seens, Step(c, p, n - 1, slots[n - 1], seens[n - 1]), n)
  {
    if Keeps(c, p, slots[n - 1]) {
      ClientSeenMore(c, slots, seens, p, Step(c, p, n - 1, slots[n - 1], seens[n - 1]), n,
                     CredsAfter(slots[n - 1], seens[n - 1], ForwardOf(c, p.nextPort, slots[n - 1], seens[n - 1])));
    }
  }

  lemma ClientSeenMore(c: Config, slots: seq<Slot>, seens: seq<Seen>, p: Pass, q: Pass, n: nat, after: Bindings)
    requires 0 < n <= |slots| && n <= |seens| && slots[n - 1].serviceType in c.providers
    requires ClientSeen(c, slots, seens, p, n - 1) && q.after == p.after[n - 1 := after]
    requires q.client == if p.client.None? && IsClientOf(c, slots[n - 1].serviceType) then Some(n - 1) else p.client
    requires p.client.None? && IsClientOf(c, slots[n - 1].serviceType) ==>
      MayInitEnv(c.providers[slots[n - 1].serviceType], after, seens[n - 1].writes)
    ensures ClientSeen(c, slots, seens, q, n)
  {
  }

  /** All variables but the one with the directory made for MySQL. */
  function Vars(env: map<string, string>): map<string, string> {
    env - {"MYSQL_HOME"}
  }

  // ------------------------------------------------------------ one binding

  /** The variables that `InitEnv` looks up in the credentials, and by which names.
      Host and port are not among them: after the rewrite they are what was set. */
  function Sources(p: ProviderState): map<string, seq<string>> {
    match p.kind
    case InfluxDB => map["INFLUX_USERNAME" := USERNAME_KEYS, "INFLUX_PASSWORD" := PASSWORD_KEYS]
    case Postgres =>
      if p.serviceCnt > 0 then map[]
      else map["PGDATABASE" := DATABASE_KEYS, "PGUSER" := USERNAME_KEYS, "PGPASSWORD" := PASSWORD_KEYS]
    case _ => map[]
  }

  /** What a lookup can answer once `SetAddress` has looked for this host. */
  ghost predicate Answers(m: Bindings, port: int, names: seq<string>, host: string, r: string) {
    MayGet(m, HOST_KEYS, host) && MayGet(Redirected(m, host, port), names, r)
  }

  /** Whichever host it looked for, and whichever key answers then. */
  ghost predicate OneAnswer(m: Bindings, port: int, names: seq<string>) {
    forall g, h, x, y | Answers(m, port, names, g, x) && Answers(m, port, names, h, y) :: x == y
  }

  /** The lookups of `InitEnv` in these credentials, rewritten to the port, have one
      answer each. */
  ghost predicate FixedVars(p: ProviderState, m: Bindings, port: int) {
    forall k | k in Sources(p) :: OneAnswer(m, port, Sources(p)[k])
  }

  /** What `InitEnv` can set then. */
  ghost predicate MaySet(p: ProviderState, m: Bindings, port: int, host: string, writes: map<string, string>) {
    MayGet(m, HOST_KEYS, host) && MayInitEnv(p, Redirected(m, host, port), writes)
  }

  ghost predicate EnvsAgree(p: ProviderState, m: Bindings, port: int, env: map<string, string>) {
    forall g, h, v, w | MaySet(p, m, port, g, v) && MaySet(p, m, port, h, w) :: Vars(env + v) == Vars(env + w)
  }

  lemma PostgresMay(p: ProviderState, m: Bindings, database: string, host: string, user: string, password: string)
    requires p.kind == Postgres && p.serviceCnt == 0 && MayGet(m, DATABASE_KEYS, database) && MayGet(m, HOST_KEYS, host)
    requires MayGet(m, USERNAME_KEYS, user) && MayGet(m, PASSWORD_KEYS, password)
    ensures MayInitEnv(p, m, PostgresVars(database, host, PortOf(m), user, password))
  {
    hide MayGet, PostgresVars;
  }

  /** A variable can be set to whatever its lookup can answer. */
  lemma SetsAs(p: ProviderState, m: Bindings, port: int, host: string, k: string, r: string)
    returns (v: map<string, string>)
    requires k in Sources(p) && Answers(m, port, Sources(p)[k], host, r)
    ensures MaySet(p, m, port, host, v) && k in v && v[k] == r
  {
    hide MayGet, Redirected, PortOf, Decimal;
    var a := Redirected(m, host, port);
    var user := GetExists(a, USERNAME_KEYS);
    var password := GetExists(a, PASSWORD_KEYS);
    if p.kind == InfluxDB {
      v := if k == "INFLUX_USERNAME" then InfluxVars(r, password) else InfluxVars(user, r);
    } else {
      var database := GetExists(a, DATABASE_KEYS);
      var local := GetExists(a, HOST_KEYS);
      var d, u := if k == "PGDATABASE" then r else database, if k == "PGUSER" then r else user;
      var w := if k == "PGPASSWORD" then r else password;
      PostgresMay(p, a, d, local, u, w);
      v := PostgresVars(d, local, PortOf(a), u, w);
    }
  }

  /** And to nothing else. */
  lemma SetsFrom(p: ProviderState, m: Bindings, port: int, host: string, k: string, v: map<string, string>)
    requires k in Sources(p) && MaySet(p, m, port, host, v)
    ensures k in v && Answers(m, port, Sources(p)[k], host, v[k])
  {
    hide MayGet, Redirected, PortOf, Decimal;
  }

  lemma RedirectedTo(m: Bindings, g: string, h: string, port: int, x: string, y: string)
    requires MayGet(Redirected(m, g, port), HOST_KEYS, x) && MayGet(Redirected(m, h, port), HOST_KEYS, y)
    ensures x == y && PortOf(Redirected(m, g, port)) == PortOf(Redirected(m, h, port))
  {
    hide MayGet, Decimal;
    RewrittenHost(m, Addr(g, PortOf(m)), LOOPBACK, port, x);
    RewrittenHost(m, Addr(h, PortOf(m)), LOOPBACK, port, y);
    assert Redirected(m, g, port)[PORT_KEY] == Redirected(m, h, port)[PORT_KEY];
  }

  /** The other variables are the same anyway. */
  lemma OthersAgree(p: ProviderState, m: Bindings, port: int, g: string, h: string, v: map<string, string>,
                    w: map<string, string>)
    requires MaySet(p, m, port, g, v) && MaySet(p, m, port, h, w)
    ensures Vars(v).Keys == Vars(w).Keys
    ensures forall k | k in Vars(v) && k !in Sources(p) :: v[k] == w[k]
  {
    hide MayGet, Redirected, PortOf, Decimal;
    if p.kind == Postgres && p.serviceCnt == 0 {
      var a, b := Redirected(m, g, port), Redirected(m, h, port);
      var database, x, user, password :| MayGet(a, DATABASE_KEYS, database) && MayGet(a, HOST_KEYS, x)
        && MayGet(a, USERNAME_KEYS, user) && MayGet(a, PASSWORD_KEYS, password)
        && v == PostgresVars(database, x, PortOf(a), user, password);
      var database', y, user', password' :| MayGet(b, DATABASE_KEYS, database') && MayGet(b, HOST_KEYS, y)
        && MayGet(b, USERNAME_KEYS, user') && MayGet(b, PASSWORD_KEYS, password')
        && w == PostgresVars(database', y, PortOf(b), user', password');
      RedirectedTo(m, g, h, port, x, y);
    }
  }

  lemma SameVars(env: map<string, string>, v: map<string, string>, w: map<string, string>)
    requires Vars(v).Keys == Vars(w).Keys && forall k | k in Vars(v) :: v[k] == w[k]
    ensures Vars(env + v) == Vars(env + w)
  {
    assert forall k :: k in Vars(v) <==> k in v && k != "MYSQL_HOME";
    assert forall k :: k in Vars(w) <==> k in w && k != "MYSQL_HOME";
  }

  lemma SameVar(env: map<string, string>, v: map<string, string>, w: map<string, string>, k: string)
    requires Vars(env + v) == Vars(env + w) && k in v && k in w && k != "MYSQL_HOME"
    ensures v[k] == w[k]
  {
    assert Vars(env + v)[k] == v[k] && Vars(env + w)[k] == w[k];
  }

  lemma FixedSets(p: ProviderState, m: Bindings, port: int, g: string, h: string, v: map<string, string>,
                  w: map<string, string>)
    requires FixedVars(p, m, port) && MaySet(p, m, port, g, v) && MaySet(p, m, port, h, w)
    ensures Vars(v).Keys == Vars(w).Keys && forall k | k in Vars(v) :: v[k] == w[k]
  {
    hide Answers, MaySet, Sources;
    OthersAgree(p, m, port, g, h, v, w);
    forall k | k in Vars(v) && k in Sources(p) ensures v[k] == w[k] {
      SetsFrom(p, m, port, g, k, v);
      SetsFrom(p, m, port, h, k, w);
      assert OneAnswer(m, port, Sources(p)[k]);
    }
  }

  /** The variables agree exactly if their lookups have one answer each. */
  lemma EnvsAgreeIff(p: ProviderState, m: Bindings, port: int, env: map<string, string>)
    ensures EnvsAgree(p, m, port, env) <==> FixedVars(p, m, port)
  {
    hide Answers, MaySet, Vars;
    if EnvsAgree(p, m, port, env) {
      forall k, g, h, x, y | k in Sources(p) && Answers(m, port, Sources(p)[k], g, x)
                             && Answers(m, port, Sources(p)[k], h, y)
        ensures x == y
      {
        var v := SetsAs(p, m, port, g, k, x);
        var w := SetsAs(p, m, port, h, k, y);
        SameVar(env, v, w, k);
      }
    }
    if FixedVars(p, m, port) {
      forall g, h, v, w | MaySet(p, m, port, g, v) && MaySet(p, m, port, h, w)
        ensures Vars(env + v) == Vars(env + w)
      {
        FixedSets(p, m, port, g, h, v, w);
        SameVars(env, v, w);
      }
    }
  }

  // ------------------------------------------------------------ the binding

  /** The binding the program is set up for, said without the pass: the first kept
      one whose type knows the program. */
  predicate IsClientSlot(job: Job, i: nat): (found: bool)
    ensures found ==> i < |job.slots| && job.slots[i].serviceType in job.c.providers
  {
    && ClientAt(job.c, job.names, job.slots, i) && KeptAt(job.c, job.names, job.slots, i)
    && forall j: nat | j < i :: !ClientAt(job.c, job.names, job.slots, j)
  }

  lemma ClientIff(job: Job, s: seq<Seen>, i: nat)
    requires |s| == |job.slots|
    ensures End(job, s).client == Some(i) <==> IsClientSlot(job, i)
  {
    hide PassAfter, KnownClients;
    var p := End(job, s);
    ClientIsFirst(job.c, job.names, job.port, job.env, job.slots, s, |s|);
    forall j: nat ensures j in p.kept <==> KeptAt(job.c, job.names, job.slots, j) {
      KeptIff(job, s, |s|, j);
    }
    if KeptAt(job.c, job.names, job.slots, i) {
      forall j: nat | j < i
        ensures ClientAt(job.c, job.names, job.slots, j) <==> j in p.kept && IsClientOf(job.c, job.slots[j].serviceType)
      {
        assert NoUnknownBefore(job.c, job.names, job.slots, j + 1);
      }
    }
    if IsClientSlot(job, i) {
      assert p.client.Some?;
      var f := p.client.value;
      assert ClientAt(job.c, job.names, job.slots, f);
      assert f >= i;
    }
  }

  /** How many of the first `n` bindings every pass keeps. */
  function KeptBefore(job: Job, n: nat): nat
    requires n <= |job.slots|
  {
    if n == 0 then 0
    else KeptBefore(job, n - 1) + if KeptAt(job.c, job.names, job.slots, n - 1) then 1 else 0
  }

  /** For a program that can do TLS each binding takes one port. */
  lemma {:induction false} PlainPorts(job: Job, n: nat)
    requires n <= |job.slots| && job.c.program !in NonTLSClients(Redis)
    ensures AllFixedTLS(job) && PortAt(job, n) == job.port + KeptBefore(job, n)
    ensures n < |job.slots| ==> ConnectAt(job, n) == job.port + KeptBefore(job, n)
  {
    hide KeptAt, MayBeTLSService;
    assert forall slot: Slot :: !TLSMatters(job.c, slot);
    if n > 0 { PlainPorts(job, n - 1); }
  }

  lemma ClientCanTLS(c: Config, t: string)
    requires t in c.providers && IsClientOf(c, t) && c.providers[t].kind != Redis
    ensures c.program !in NonTLSClients(Redis) && c.program !in NonTLSClients(c.providers[t].kind)
  {
  }

  ghost predicate FixedAt(job: Job, i: nat)
    requires i < |job.slots| && job.slots[i].serviceType in job.c.providers
  {
    FixedVars(job.c.providers[job.slots[i].serviceType], job.slots[i].entry.creds, job.port + KeptBefore(job, i))
  }

  /** For the binding the program is set up for, the lookups of `InitEnv` have one
      answer each: in the credentials as they are listed, rewritten to the first port
      plus the number of bindings kept before. */
  ghost predicate ClientFixed(job: Job) {
    forall i: nat | IsClientSlot(job, i) :: FixedAt(job, i)
  }

  ghost predicate VarsAgree(job: Job) {
    forall a, b | Valid(job, a) && Valid(job, b) :: Vars(End(job, a).env) == Vars(End(job, b).env)
  }

  /** Where the variables of a pass come from. */
  lemma ClientVars(job: Job, a: seq<Seen>, i: nat)
    requires Valid(job, a) && IsClientSlot(job, i)
    ensures End(job, a).env == job.env + a[i].writes && i in End(job, a).after
    ensures MayInitEnv(job.c.providers[job.slots[i].serviceType], End(job, a).after[i], a[i].writes)
  {
    hide AllSeen, PassAfter, MayInitEnv, KeptAt, FirstAt;
    ClientIff(job, a, i);
    ClientIsFirst(job.c, job.names, job.port, job.env, job.slots, a, |a|);
    ClientIsSeen(job.c, job.names, job.port, job.env, job.slots, a, |a|);
  }

  lemma ClientMaySet(job: Job, a: seq<Seen>, i: nat)
    requires Valid(job, a) && IsClientSlot(job, i) && job.c.providers[job.slots[i].serviceType].kind != Redis
    ensures MaySet(job.c.providers[job.slots[i].serviceType], job.slots[i].entry.creds, job.port + KeptBefore(job, i),
                   a[i].oldHost, a[i].writes)
  {
    hide AllSeen, PassAfter, MayInitEnv, KeptAt, NonTLSClients, KnownClients, Redirected;
    ClientVars(job, a, i);
    ClientCanTLS(job.c, job.slots[i].serviceType);
    PlainPorts(job, i);
    RewriteIs(job, a, i);
  }

  /** A pass that has begun can meet any outcome of `InitEnv` for its client. */
  lemma ClientSets(job: Job, before: seq<Seen>, i: nat, host: string, v: map<string, string>) returns (a: seq<Seen>)
    requires ValidSoFar(job, before) && |before| == i && IsClientSlot(job, i)
    requires job.c.providers[job.slots[i].serviceType].kind != Redis
    requires MaySet(job.c.providers[job.slots[i].serviceType], job.slots[i].entry.creds, job.port + KeptBefore(job, i),
                    host, v)
    ensures Valid(job, a) && End(job, a).env == job.env + v
  {
    hide AllSeen, PassAfter, MayInitEnv, MayGet, KeptAt, NonTLSClients, KnownClients, Redirected, MayBeTLSService;
    var slot := job.slots[i];
    var tls := SomeServiceTLS(job.c.providers[slot.serviceType].kind, slot.entry.creds);
    var seen := Seen(host, tls, host, v);
    ClientCanTLS(job.c, slot.serviceType);
    PlainPorts(job, i);
    PortIs(job, before, i);
    a := Resumed(job, before, seen);
    ClientVars(job, a, i);
  }

  // ------------------------------------------------------------- the theorem

  lemma NoClientVars(job: Job, a: seq<Seen>)
    requires |a| == |job.slots| && forall i: nat :: !IsClientSlot(job, i)
    ensures End(job, a).env == job.env
  {
    hide PassAfter, IsClientSlot;
    ClientIsFirst(job.c, job.names, job.port, job.env, job.slots, a, |a|);
    if End(job, a).client.Some? { ClientIff(job, a, End(job, a).client.value); }
  }

  lemma FixedClientAgrees(job: Job, a: seq<Seen>, b: seq<Seen>)
    requires ClientFixed(job) && Valid(job, a) && Valid(job, b)
    ensures Vars(End(job, a).env) == Vars(End(job, b).env)
  {
    hide AllSeen, PassAfter, IsClientSlot, MaySet, FixedVars, Vars;
    if i: nat :| IsClientSlot(job, i) {
      var p := job.c.providers[job.slots[i].serviceType];
      ClientVars(job, a, i);
      ClientVars(job, b, i);
      if p.kind != Redis {
        ClientMaySet(job, a, i);
        ClientMaySet(job, b, i);
        EnvsAgreeIff(p, job.slots[i].entry.creds, job.port + KeptBefore(job, i), job.env);
      }
    } else {
      NoClientVars(job, a);
      NoClientVars(job, b);
    }
  }

  lemma AgreeingClientIsFixed(job: Job, i: nat)
    requires VarsAgree(job) && IsClientSlot(job, i)
    ensures FixedAt(job, i)
  {
    hide AllSeen, PassAfter, IsClientSlot, MaySet, Vars;
    var p, m := job.c.providers[job.slots[i].serviceType], job.slots[i].entry.creds;
    var port := job.port + KeptBefore(job, i);
    if p.kind != Redis {
      var before := Begun(job, i);
      forall g, h, v, w | MaySet(p, m, port, g, v) && MaySet(p, m, port, h, w)
        ensures Vars(job.env + v) == Vars(job.env + w)
      {
        var a := ClientSets(job, before, i, g, v);
        var b := ClientSets(job, before, i, h, w);
      }
      EnvsAgreeIff(p, m, port, job.env);
    }
  }

  /** All variables but MYSQL_HOME are the same in all passes exactly if the lookups
      for the binding the program is set up for have one answer each. */
  lemma VarsAreFixedIff(job: Job)
    ensures VarsAgree(job) <==> ClientFixed(job)
  {
    hide AllSeen, PassAfter, IsClientSlot, FixedVars, Vars;
    if ClientFixed(job) {
      forall a, b | Valid(job, a) && Valid(job, b) ensures Vars(End(job, a).env) == Vars(End(job, b).env) {
        FixedClientAgrees(job, a, b);
      }
    }
    if VarsAgree(job) {
      forall i: nat | IsClientSlot(job, i) ensures FixedAt(job, i) {
        AgreeingClientIsFixed(job, i);
      }
    }
  }

  lemma CoherentAnswersOnce(m: Bindings, port: int, names: seq<string>)
    requires Coherent(m) && NoneIsPort(names)
    ensures OneAnswer(m, port, names)
  {
    hide MayGet, Coherent, Rewrite, Addr, PortOf;
    forall g, h, x, y | Answers(m, port, names, g, x) && Answers(m, port, names, h, y) ensures x == y {
      CoherentGetIsUnique(m, HOST_KEYS, g, h);
      RewriteKeepsCoherent(m, Addr(g, PortOf(m)), LOOPBACK, port);
      CoherentGetIsUnique(Redirected(m, g, port), names, x, y);
    }
  }

  lemma CoherentVarsAreFixed(p: ProviderState, m: Bindings, port: int)
    requires Coherent(m)
    ensures FixedVars(p, m, port)
  {
    hide Coherent, OneAnswer;
    forall k | k in Sources(p) ensures OneAnswer(m, port, Sources(p)[k]) {
      CoherentAnswersOnce(m, port, Sources(p)[k]);
    }
  }

  /** Coherent credentials of that binding are enough for it. */
  lemma CoherentClientIsFixed(job: Job)
    requires forall i: nat | IsClientSlot(job, i) :: Coherent(job.slots[i].entry.creds)
    ensures ClientFixed(job)
  {
    hide IsClientSlot, Coherent, FixedVars;
    forall i: nat | IsClientSlot(job, i) ensures FixedAt(job, i) {
      CoherentVarsAreFixed(job.c.providers[job.slots[i].serviceType], job.slots[i].entry.creds,
                           job.port + KeptBefore(job, i));
    }
  }

  /** The program of the run is one of MySQL's. */
  predicate UsesMySQL(c: Config) {
    exists t :: t in c.providers && c.providers[t].kind == MySQL && IsClientOf(c, t)
  }

  /** Only for a MySQL program can MYSQL_HOME differ. */
  lemma NoMySQLHome(p: ProviderState, m: Bindings, writes: map<string, string>)
    requires p.kind != MySQL && MayInitEnv(p, m, writes)
    ensures "MYSQL_HOME" !in writes
  {
    hide MayGet, Decimal, PortOf;
  }

  lemma SameHome(env: map<string, string>, v: map<string, string>, w: map<string, string>)
    requires "MYSQL_HOME" !in v && "MYSQL_HOME" !in w && Vars(env + v) == Vars(env + w)
    ensures env + v == env + w
  {
    var a, b := env + v, env + w;
    forall k ensures k in a <==> k in b {
      assert k != "MYSQL_HOME" ==> (k in a <==> k in Vars(a)) && (k in b <==> k in Vars(b));
    }
    forall k | k in a ensures a[k] == b[k] {
      assert k != "MYSQL_HOME" ==> a[k] == Vars(a)[k] == Vars(b)[k] == b[k];
    }
  }

  lemma EnvIsFixed(job: Job, a: seq<Seen>, b: seq<Seen>)
    requires ClientFixed(job) && Valid(job, a) && Valid(job, b)
    ensures Vars(End(job, a).env) == Vars(End(job, b).env)
    ensures !UsesMySQL(job.c) ==> End(job, a).env == End(job, b).env
  {
    hide AllSeen, PassAfter, MayInitEnv, ClientFixed, Vars, KnownClients, KeptAt;
    FixedClientAgrees(job, a, b);
    if i: nat :| IsClientSlot(job, i) {
      var p := job.c.providers[job.slots[i].serviceType];
      ClientVars(job, a, i);
      ClientVars(job, b, i);
      if !UsesMySQL(job.c) {
        assert p.kind != MySQL;
        NoMySQLHome(p, End(job, a).after[i], a[i].writes);
        NoMySQLHome(p, End(job, b).after[i], b[i].writes);
        SameHome(job.env, a[i].writes, b[i].writes);
      }
    } else {
      NoClientVars(job, a);
      NoClientVars(job, b);
    }
  }

  // -------------------------------------------------------- where they differ

  /** psql, set up for one binding with these credentials. */
  function PsqlJob(creds: Bindings): Job {
    Job(Config("psql", map["postgres" := ProviderState(Postgres, 0, "")]), ["x"], 1, map[],
        [Slot("postgres", Entry("", "x", creds))])
  }

  /** PGUSER can be whatever the user lookup can answer. */
  lemma PsqlUser(creds: Bindings, host: string, user: string) returns (a: seq<Seen>)
    requires Answers(creds, 1, USERNAME_KEYS, host, user)
    ensures Valid(PsqlJob(creds), a)
    ensures "PGUSER" in End(PsqlJob(creds), a).env && End(PsqlJob(creds), a).env["PGUSER"] == user
  {
    hide MayGet, MayInitEnv, Redirected, PassAfter, MaySee;
    var job := PsqlJob(creds);
    assert IsClientSlot(job, 0);
    var v := SetsAs(job.c.providers["postgres"], creds, 1, host, "PGUSER", user);
    a := ClientSets(job, [], 0, host, v);
  }

  /** Two user names under keys that fold together. */
  const TWO_USERS: Bindings := map["host" := Str("h"), "user" := Str("a"), "User" := Str("b")]

  /** A text shorter than any address is not rewritten. */
  lemma ShortTextStays(m: Bindings, k: string, host: string, port: int)
    requires k in m && k != PORT_KEY && !IsHostKey(k) && m[k].Str? && |m[k].text| < 2
    ensures k in Redirected(m, host, port) && Redirected(m, host, port)[k] == m[k]
  {
    hide EqualFold, Decimal, PortOf, Addr;
  }

  lemma UserAnswers(m: Bindings, k: string, user: string)
    requires k in {"user", "User"} && k in m && m[k] == Str(user)
    ensures MayGet(m, USERNAME_KEYS, user)
  {
    assert EqualFold("user", "user") && EqualFold("User", "user");
    assert HasKey(m, USERNAME_KEYS[0]) && Show(m[k]) == user;
  }

  lemma HostAnswers(m: Bindings, host: string)
    requires "host" in m && m["host"] == Str(host)
    ensures MayGet(m, HOST_KEYS, host)
  {
    assert EqualFold("host", "host");
    assert HasKey(m, HOST_KEYS[0]) && Show(m["host"]) == host;
  }

  lemma UserIsNotHostKey()
    ensures !IsHostKey("user") && !IsHostKey("User")
  {
    assert FoldChar("user"[0]) != FoldChar("host"[0]) && FoldChar("User"[0]) != FoldChar("host"[0]);
    assert |"user"| != |"hostname"| && |"User"| != |"hostname"|;
  }

  lemma EitherUser(port: int)
    ensures Answers(TWO_USERS, port, USERNAME_KEYS, "h", "a") && Answers(TWO_USERS, port, USERNAME_KEYS, "h", "b")
  {
    hide EqualFold, MayGet, Redirected;
    UserIsNotHostKey();
    HostAnswers(TWO_USERS, "h");
    ShortTextStays(TWO_USERS, "user", "h", port);
    ShortTextStays(TWO_USERS, "User", "h", port);
    UserAnswers(Redirected(TWO_USERS, "h", port), "user", "a");
    UserAnswers(Redirected(TWO_USERS, "h", port), "User", "b");
  }

  /** With two user names for psql two passes can set different ones. */
  lemma AmbiguousUserShows() returns (a: seq<Seen>, b: seq<Seen>)
    ensures var job := PsqlJob(TWO_USERS);
      && Valid(job, a) && "PGUSER" in End(job, a).env && End(job, a).env["PGUSER"] == "a"
      && Valid(job, b) && "PGUSER" in End(job, b).env && End(job, b).env["PGUSER"] == "b"
  {
    EitherUser(1);
    a := PsqlUser(TWO_USERS, "h", "a");
    b := PsqlUser(TWO_USERS, "h", "b");
  }

  /** Two host names, and a user name that reads like the address of one of them. */
  const TWO_HOSTS: Bindings := map["host" := Str("a"), "Host" := Str("b"), "user" := Str("a:0")]

  lemma EitherAddress()
    ensures Answers(TWO_HOSTS, 1, USERNAME_KEYS, "a", "127.0.0.1:1")
    ensures Answers(TWO_HOSTS, 1, USERNAME_KEYS, "b", "a:0")
  {
    hide Redirected, EqualFold, MayGet;
    UserIsNotHostKey();
    AddressOfEither(TWO_HOSTS, "user", 1);
    assert Addr(LOOPBACK, 1) == "127.0.0.1:1";
    UserAnswers(Redirected(TWO_HOSTS, "a", 1), "user", "127.0.0.1:1");
    UserAnswers(Redirected(TWO_HOSTS, "b", 1), "user", "a:0");
  }

  lemma RewritesDiffer()
    ensures !RewritesAgree(PsqlJob(TWO_HOSTS))
  {
    hide Redirected, EqualFold, MayGet, KeptBefore;
    var job := PsqlJob(TWO_HOSTS);
    UserIsNotHostKey();
    PlainPorts(job, 0);
    AddressOfEither(TWO_HOSTS, "user", ConnectAt(job, 0));
    assert Addr(LOOPBACK, ConnectAt(job, 0))[0] != "a:0"[0];
    assert KeptAt(job.c, job.names, job.slots, 0);
    RewritesAreFixedIff(job);
  }

  /** So they can with one user name but two hosts: a name that reads like the address
      of one of them is rewritten if that one is looked for. The credentials shown in
      VCAP_SERVICES differ with it. */
  lemma AmbiguousHostShowsInUser() returns (a: seq<Seen>, b: seq<Seen>)
    ensures var job := PsqlJob(TWO_HOSTS);
      && Valid(job, a) && "PGUSER" in End(job, a).env && End(job, a).env["PGUSER"] == "127.0.0.1:1"
      && Valid(job, b) && "PGUSER" in End(job, b).env && End(job, b).env["PGUSER"] == "a:0"
      && !RewritesAgree(job)
  {
    hide Answers, PsqlJob;
    EitherAddress();
    RewritesDiffer();
    a := PsqlUser(TWO_HOSTS, "a", "127.0.0.1:1");
    b := PsqlUser(TWO_HOSTS, "b", "a:0");
  }
}
