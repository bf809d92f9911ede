/** The program conduit runs is given the port of the very forward planned for
    the first kept binding of the type it speaks. */
module ProgramView {
  import opened GoStrings
  import opened ServiceCredentials
  import opened Outside
  import opened Services
  import opened Plan
  import opened PlanFacts
  import opened Routing
  import opened Variables

  /** No kind of provider is registered under two names. */
  predicate DistinctKinds(c: Config) {
    forall s, t | s in c.providers && t in c.providers && c.providers[s].kind == c.providers[t].kind :: s == t
  }

  /** The four providers of conduit.go:112-115. */
  const REGISTERED: map<string, ProviderState> :=
    map["mysql" := ProviderState(MySQL, 0, ""), "postgres" := ProviderState(Postgres, 0, ""),
        "redis" := ProviderState(Redis, 0, ""), "influxdb" := ProviderState(InfluxDB, 0, "")]

  lemma RegisteredAreDistinct(program: string)
    ensures DistinctKinds(Config(program, REGISTERED))
  {
  }

  /** The programs conduit knows, and the service type each of them speaks. */
  lemma TypeOfProgram(program: string)
    ensures ValidTypes(Config(program, REGISTERED)) ==
      if program in {"mysql", "mysqldump"} then {"mysql"}
      else if program in {"psql", "pg_dump"} then {"postgres"}
      else if program == "redis-cli" then {"redis"}
      else if program in {"influx", "chronograf", "telegraf", "influx_inspect", "inch"} then {"influxdb"}
      else {}
  {
    var c := Config(program, REGISTERED);
    assert forall t :: t in ValidTypes(c) <==>
      (t == "mysql" && program in KnownClients(MySQL)) || (t == "postgres" && program in KnownClients(Postgres))
      || (t == "redis" && program in KnownClients(Redis)) || (t == "influxdb" && program in KnownClients(InfluxDB));
  }

  /** Only redis-cli gets a TLS tunnel, for a redis binding that is TLS. */
  lemma TLSForRedisCli(program: string, slot: Slot, seen: Seen)
    requires slot.serviceType in REGISTERED
    ensures WantsTLS(Config(program, REGISTERED), slot, seen) <==>
      slot.serviceType == "redis" && program == "redis-cli" && seen.tls
  {
  }

  /** At most one registered provider knows a program, so looking for it gives
      the same answer in whatever order the providers are visited. */
  lemma OneTypeKnows(c: Config, s: string, t: string)
    requires DistinctKinds(c) && s in ValidTypes(c) && t in ValidTypes(c)
    ensures s == t
  {
    ClientsAreDisjoint(c.providers[s].kind, c.providers[t].kind, c.program);
  }

  /** The kept slot `i` is reached through forward `j`. */
  predicate ForwardFor(p: Pass, i: nat, j: nat) {
    j < |p.kept| == |p.forwards| && p.kept[j] == i
  }

  /** The rewritten port of a kept binding is the one to connect to. */
  lemma KeptPort(c: Config, names: seq<string>, port: nat, env: map<string, string>,
                 slots: seq<Slot>, seens: seq<Seen>, i: nat) returns (j: nat)
    requires port > 0 && port + 2 * |slots| <= MAX_INT64 && |seens| == |slots|
    requires AllSeen(c, Start(names, port, env), slots, seens, |slots|)
    requires i in PassAfter(c, Start(names, port, env), slots, seens, |slots|).kept
    ensures var p := PassAfter(c, Start(names, port, env), slots, seens, |slots|);
      ForwardFor(p, i, j) && i in p.after && PortOf(p.after[i]) == p.forwards[j].ConnectPort()
  {
    var p := PassAfter(c, Start(names, port, env), slots, seens, |slots|);
    PortsAreConsecutive(c, names, port, env, slots, seens, |slots|);
    ConsecutiveIsApart(p.forwards, port, p.nextPort);
    ForwardsFit(c, names, port, env, slots, seens, |slots|);
    KeptAtMost(c, names, port, env, slots, seens, |slots|);
    KeptMaySee(c, Start(names, port, env), slots, seens, |slots|, i);
    CountTLSAtMost(p.forwards);
    j :| 0 <= j < |p.kept| && p.kept[j] == i;
    assert Fits(c, slots, seens, p, j);
    assert p.forwards[j].ConnectPort() in Ports(p.forwards[j]);
    GetAnswersPort(slots[i].entry.creds, p.after[i], seens[i].oldHost, p.forwards[j].ConnectPort());
  }

  lemma GetAnswersPort(m: Bindings, m': Bindings, oldHost: string, port: int)
    requires IsInt64(port) && MayGet(m, HOST_KEYS, oldHost)
    requires m' == Rewrite(m, Addr(oldHost, PortOf(m)), LOOPBACK, port)
    ensures PortOf(m') == port
  {
    var r := GetExists(m', HOST_KEYS);
    ReadBack(m, m', LOOPBACK, port, r);
  }

  /** Slot `f` is the first one kept of the only type that speaks the program. */
  predicate FirstOfOnlyType(c: Config, slots: seq<Slot>, p: Pass, f: nat) {
    && f < |slots| && f in p.kept && InRange(slots, p.kept)
    && ValidTypes(c) == {slots[f].serviceType}
    && KeptOf(slots, p.kept, slots[f].serviceType) != []
    && KeptOf(slots, p.kept, slots[f].serviceType)[0] == f
  }

  lemma FirstClientIsFirstOfType(c: Config, slots: seq<Slot>, p: Pass)
    requires DistinctKinds(c) && FirstClient(c, slots, p) && Increasing(p.kept) && p.client.Some?
    ensures FirstOfOnlyType(c, slots, p, p.client.value)
  {
    var f := p.client.value;
    var t := slots[f].serviceType;
    assert forall j | 0 <= j < |p.kept| :: p.kept[j] in p.kept;
    forall s ensures s in ValidTypes(c) <==> s == t {
      if s in ValidTypes(c) { OneTypeKnows(c, s, t); }
    }
    KeptOfIsOrdered(slots, p.kept, t);
    var ks := KeptOf(slots, p.kept, t);
    assert f in ks && ks[0] in ks;
    var at :| 0 <= at < |ks| && ks[at] == f;
    assert ks[0] <= ks[at];
  }

  lemma KeptInOrder(c: Config, names: seq<string>, port: int, env: map<string, string>, slots: seq<Slot>,
                    seens: seq<Seen>)
    requires |seens| == |slots|
    ensures Increasing(PassAfter(c, Start(names, port, env), slots, seens, |slots|).kept)
  {
    Selection(c, names, port, env, slots, seens, |slots|);
  }

  lemma PlannedHasClient(c: Config, slots: seq<Slot>, p: Pass)
    requires c.program != "" && p.stopped.None? && OutcomeOf(c, slots, p) == Planned
    ensures p.client.Some?
  {
  }

  /** When the pass succeeds for a program: one type speaks it, something of that
      type is kept, and `InitEnv` ran for the first of these. */
  lemma ClientIsFirstOfItsType(c: Config, names: seq<string>, port: int, env: map<string, string>,
                               slots: seq<Slot>, seens: seq<Seen>)
    requires |seens| == |slots| && c.program != "" && DistinctKinds(c)
    requires var p := PassAfter(c, Start(names, port, env), slots, seens, |slots|);
      p.stopped.None? && OutcomeOf(c, slots, p) == Planned
    ensures var p := PassAfter(c, Start(names, port, env), slots, seens, |slots|);
      p.client.Some? && FirstOfOnlyType(c, slots, p, p.client.value)
  {
    var p := PassAfter(c, Start(names, port, env), slots, seens, |slots|);
    KeptInOrder(c, names, port, env, slots, seens);
    ClientIsFirst(c, names, port, env, slots, seens, |slots|);
    PlannedHasClient(c, slots, p);
    FirstClientIsFirstOfType(c, slots, p);
  }

  /** psql and pg_dump get the planned port as PGPORT. */
  lemma PostgresGetsThePlannedPort(c: Config, names: seq<string>, port: nat, env: map<string, string>,
                                   slots: seq<Slot>, seens: seq<Seen>) returns (j: nat)
    requires port > 0 && port + 2 * |slots| <= MAX_INT64 && |seens| == |slots|
    requires AllSeen(c, Start(names, port, env), slots, seens, |slots|)
    requires c.program in KnownClients(Postgres) && DistinctKinds(c)
    requires forall t | t in c.providers && c.providers[t].kind == Postgres :: c.providers[t].serviceCnt == 0
    requires var p := PassAfter(c, Start(names, port, env), slots, seens, |slots|);
      p.stopped.None? && OutcomeOf(c, slots, p) == Planned
    ensures var p := PassAfter(c, Start(names, port, env), slots, seens, |slots|);
      && p.client.Some? && ForwardFor(p, p.client.value, j)
      && "PGPORT" in p.env && p.env["PGPORT"] == Decimal(p.forwards[j].ConnectPort())
  {
    var p := PassAfter(c, Start(names, port, env), slots, seens, |slots|);
    ClientIsFirstOfItsType(c, names, port, env, slots, seens);
    ClientIsFirst(c, names, port, env, slots, seens, |slots|);
    ClientIsSeen(c, names, port, env, slots, seens, |slots|);
    var i := p.client.value;
    j := KeptPort(c, names, port, env, slots, seens, i);
    var provider := c.providers[slots[i].serviceType];
    ClientsAreDisjoint(provider.kind, Postgres, c.program);
    PostgresEnvPort(provider, p.after[i], seens[i].writes);
  }

  lemma PostgresEnvPort(p: ProviderState, m: Bindings, writes: map<string, string>)
    requires p.kind == Postgres && p.serviceCnt == 0 && MayInitEnv(p, m, writes)
    ensures "PGPORT" in writes && writes["PGPORT"] == Decimal(PortOf(m))
  {
  }

  /** redis-cli and the InfluxDB programs get it as their port argument, from the
      first binding left under their type. */
  lemma ArgumentsNameThePlannedPort(c: Config, names: seq<string>, port: nat, env: map<string, string>,
                                    slots: seq<Slot>, seens: seq<Seen>, t: string, args: seq<string>) returns (j: nat)
    requires port > 0 && port + 2 * |slots| <= MAX_INT64 && |seens| == |slots|
    requires AllSeen(c, Start(names, port, env), slots, seens, |slots|)
    requires c.program != "" && DistinctKinds(c)
    requires t in ValidTypes(c) && c.providers[t].kind in {Redis, InfluxDB}
    requires var p := PassAfter(c, Start(names, port, env), slots, seens, |slots|);
      && p.stopped.None? && OutcomeOf(c, slots, p) == Planned && Keepable(slots, p, p.kept)
      && MayAddArgs(c.providers[t].kind, FirstCreds(FinalServices(slots, p), t), args)
    ensures var p := PassAfter(c, Start(names, port, env), slots, seens, |slots|);
      && p.client.Some? && ForwardFor(p, p.client.value, j)
      && |args| >= 4 && args[2] == (if c.providers[t].kind == Redis then "-p" else "-port")
      && args[3] == Decimal(p.forwards[j].ConnectPort())
  {
    var p := PassAfter(c, Start(names, port, env), slots, seens, |slots|);
    ClientIsFirstOfItsType(c, names, port, env, slots, seens);
    var i := p.client.value;
    assert slots[i].serviceType == t;
    j := KeptPort(c, names, port, env, slots, seens, i);
    assert t in FinalServices(slots, p) by { assert slots[p.kept[j]].serviceType == t; }
    ArgsPort(c.providers[t].kind, p.after[i], args);
  }

  /** The credentials of the first binding listed under a type. */
  function FirstCreds(services: Environment, t: string): Option<Bindings> {
    if t in services && services[t] != [] then Some(services[t][0].creds) else None
  }

  lemma ArgsPort(kind: Kind, m: Bindings, args: seq<string>)
    requires kind in {Redis, InfluxDB} && MayAddArgs(kind, Some(m), args)
    ensures |args| >= 4 && args[2] == (if kind == Redis then "-p" else "-port") && args[3] == Decimal(PortOf(m))
  {
  }

  /** The arguments `getProgramSpecificArgs` can answer with. */
  ghost predicate MayGetArgs(c: Config, services: Environment, args: seq<string>) {
    if ValidTypes(c) == {} then args == []
    else exists t :: t in ValidTypes(c) && MayAddArgs(c.providers[t].kind, FirstCreds(services, t), args)
  }
}
