/** What a user of the opened tunnels can rely on: the facts about passes and
    nets, said of what a successful set-up leaves in the application object. */
module Guarantees {
  import opened GoStrings
  import opened ServiceCredentials
  import opened Outside
  import opened Services
  import opened Plan
  import opened PlanFacts
  import opened Routing
  import opened Determinism
  import opened Variables
  import opened ProgramView
  import opened Tunnels
  import opened Vcap
  import opened Visiting
  import opened Lifecycle
  import opened Conduit

  /** The visit began with nothing planned and ports to spare. */
  predicate Roomy(v: Visit) {
    v.forwards == [] && v.port > 0 && v.port + 2 * |v.slots| <= MAX_INT64
  }

  predicate FirstOfType(slots: seq<Slot>, names: seq<string>, i: nat, t: string) {
    FirstAt(slots, names, i) && slots[i].serviceType == t
  }

  /** What a successful pass leaves under a type: the first bindings of the
      requested names that are listed there, in their order. */
  ghost predicate ExactlyFirsts(slots: seq<Slot>, names: seq<string>, ks: seq<nat>, t: string) {
    Increasing(ks) && forall i: nat :: i in ks <==> FirstOfType(slots, names, i, t)
  }

  /** The listing under one type is what was kept of it. */
  lemma TypeHasFirsts(slots: seq<Slot>, names: seq<string>, p: Pass, t: string)
    requires Keepable(slots, p, p.kept) && Increasing(p.kept)
    requires forall i: nat :: i in p.kept <==> FirstAt(slots, names, i)
    ensures ExactlyFirsts(slots, names, KeptOf(slots, p.kept, t), t)
    ensures t in FinalServices(slots, p) <==> exists i: nat :: FirstOfType(slots, names, i, t)
    ensures t in FinalServices(slots, p) ==> |FinalServices(slots, p)[t]| == |KeptOf(slots, p.kept, t)| > 0
  {
    hide FirstAt;
    KeptOfIsOrdered(slots, p.kept, t);
    TypeIsKept(slots, p.kept, t);
    var ks := KeptOf(slots, p.kept, t);
    assert ExactlyFirsts(slots, names, ks, t);
    if ks != [] { assert ks[0] in ks; }
  }

  /** Every requested name that is no longer waited for has a first occurrence. */
  lemma NamesOccur(slots: seq<Slot>, names: seq<string>, x: string)
    requires x in names && !Unseen(slots, x, |slots|)
    ensures exists i: nat :: FirstAt(slots, names, i) && slots[i].entry.instanceName == x
  {
    var i := FirstOccurrence(slots, x, |slots|);
    assert FirstAt(slots, names, i);
  }

  /** On success there is one kept binding and one forward for each distinct
      name, and the listing is cut down to exactly the first bindings of the
      requested names, with no type left empty. */
  lemma PlannedSelection(c: Config, names: seq<string>, port: int, env: map<string, string>, slots: seq<Slot>,
                         seens: seq<Seen>)
    requires |seens| == |slots| && PassAfter(c, Start(names, port, env), slots, seens, |slots|).stopped.None?
    requires OutcomeOf(c, slots, PassAfter(c, Start(names, port, env), slots, seens, |slots|)) == Outcome.Planned
    ensures var p := PassAfter(c, Start(names, port, env), slots, seens, |slots|);
      && |p.forwards| == |p.kept| == |set x | x in names| && Keepable(slots, p, p.kept)
      && (forall x | x in names :: exists i: nat :: FirstAt(slots, names, i) && slots[i].entry.instanceName == x)
      && (forall t :: ExactlyFirsts(slots, names, KeptOf(slots, p.kept, t), t))
      && (forall t :: t in FinalServices(slots, p) <==> exists i: nat :: FirstOfType(slots, names, i, t))
      && (forall t | t in FinalServices(slots, p) :: |FinalServices(slots, p)[t]| == |KeptOf(slots, p.kept, t)| > 0)
  {
    hide PassAfter, FirstAt, Unseen, FinalServices, KeptOf, ExactlyFirsts, FirstOfType;
    var p := PassAfter(c, Start(names, port, env), slots, seens, |slots|);
    Selection(c, names, port, env, slots, seens, |slots|);
    KeptAndWaitingCount(c, names, port, env, slots, seens, |slots|);
    KeptAreFirsts(c, names, slots, p);
    forall x | x in names ensures exists i: nat :: FirstAt(slots, names, i) && slots[i].entry.instanceName == x {
      assert x !in p.waiting;
      NamesOccur(slots, names, x);
    }
    forall t { TypeHasFirsts(slots, names, p, t); }
  }

  lemma KeptAreFirsts(c: Config, names: seq<string>, slots: seq<Slot>, p: Pass)
    requires Selected(c, names, slots, p, |slots|) && p.stopped.None?
    ensures Keepable(slots, p, p.kept) && Increasing(p.kept)
    ensures forall i: nat :: i in p.kept <==> FirstAt(slots, names, i)
  {
    assert forall j | 0 <= j < |p.kept| :: p.kept[j] in p.kept;
  }

  lemma {:induction false} FirstOccurrence(slots: seq<Slot>, x: string, n: nat) returns (i: nat)
    requires n <= |slots| && !Unseen(slots, x, n)
    ensures i < n && slots[i].entry.instanceName == x && Unseen(slots, x, i)
  {
    if Unseen(slots, x, n - 1) { i := n - 1; } else { i := FirstOccurrence(slots, x, n - 1); }
  }

  lemma {:induction false} EntryIsListed(slots: seq<Slot>, k: nat)
    requires k < |slots|
    ensures slots[k].entry in EntriesOf(slots, slots[k].serviceType)
  {
    if k < |slots| - 1 { EntryIsListed(slots[..|slots| - 1], k); }
  }

  /** Where binding `i` of a type comes from: the first binding in visiting order
      of a requested name, listed under that type by the server. */
  lemma KeptBinding(l: Layout, marshal: Environment -> string, v: Visit, env: Environment, seens: seq<Seen>, t: string,
                    i: nat)
    returns (k: nat)
    requires IsPlan(l, marshal, v, env, seens) && t in l.services && i < |l.services[t]|
    ensures k < |v.slots| && FirstAt(v.slots, v.names, k) && v.slots[k].serviceType == t
    ensures t in env && v.slots[k].entry in env[t]
    ensures k in PassOf(v, seens).kept && k in PassOf(v, seens).after
    ensures l.services[t][i] == v.slots[k].entry.(creds := PassOf(v, seens).after[k])
  {
    var p := PassOf(v, seens);
    Selection(v.c, v.names, v.port, v.env, v.slots, seens, |seens|);
    k := KeptOf(v.slots, p.kept, t)[i];
    assert k in KeptOf(v.slots, p.kept, t);
    EntryIsListed(v.slots, k);
    SlotsHoldEverything(v.keys, env, t);
  }

  /** Through the listeners of this net, the local port leads to host `h` and port of
      these credentials, and nowhere else. */
  ghost predicate LeadsOnlyTo(net: Net, port: int, before: Bindings, h: string, steps: nat) {
    && MayGet(before, HOST_KEYS, h)
    && forall r, hops: nat ::
         Leads(net, Here(Addr("localhost", port)), Remote(r), hops) <==> r == Addr(h, PortOf(before)) && hops == steps
  }

  /** The port in the rewritten credentials leads to where they led before, and the
      host in them is this machine unless there was none. */
  ghost predicate RoutedTo(net: Net, after: Bindings, before: Bindings, h: string, steps: nat) {
    && LeadsOnlyTo(net, PortOf(after), before, h, steps)
    && forall host | MayGet(after, HOST_KEYS, host) :: host == if HasHostKey(before) then LOOPBACK else ""
  }

  /** A kept binding is routed to its own old address, in two hops if it has a TLS
      tunnel and in one otherwise. */
  lemma LiveRoute(v: Visit, seens: seq<Seen>, k: nat) returns (steps: nat)
    requires Roomy(v) && |seens| == |v.slots| && SeenOf(v, seens)
    requires k in PassOf(v, seens).kept && k in PassOf(v, seens).after && k < |v.slots|
    ensures v.slots[k].serviceType in v.c.providers && steps == if WantsTLS(v.c, v.slots[k], seens[k]) then 2 else 1
    ensures var p := PassOf(v, seens);
      RoutedTo(NetOf(p.forwards), p.after[k], v.slots[k].entry.creds, seens[k].remoteHost, steps)
  {
    hide MayGet, Leads, CredsAfter, WantsTLS, NetOf, Addr, PortOf, PassAfter, AllSeen, Ports, HasHostKey;
    var p := PassOf(v, seens);
    var j :| 0 <= j < |p.kept| && p.kept[j] == k;
    ForwardsFit(v.c, v.names, v.port, v.env, v.slots, seens, |seens|);
    assert Fits(v.c, v.slots, seens, p, j);
    steps := if WantsTLS(v.c, v.slots[k], seens[k]) then 2 else 1;
    var some := GetExists(p.after[k], HOST_KEYS);
    var h, before := seens[k].remoteHost, v.slots[k].entry.creds;
    forall r, hops: nat
      ensures Leads(NetOf(p.forwards), Here(Addr("localhost", PortOf(p.after[k]))), Remote(r), hops) <==>
        r == Addr(h, PortOf(before)) && hops == steps
    {
      RoutesEndToEnd(v.c, v.names, v.port, v.env, v.slots, seens, j, r, hops, some);
    }
    forall host | MayGet(p.after[k], HOST_KEYS, host) ensures host == if HasHostKey(before) then LOOPBACK else "" {
      RoutesEndToEnd(v.c, v.names, v.port, v.env, v.slots, seens, j, "", 0, host);
    }
    RoutesEndToEnd(v.c, v.names, v.port, v.env, v.slots, seens, j, "", 0, some);
  }

  /** End to end, in terms of what the server sent and what is left in
      VCAP_SERVICES: each binding left there stems from one of the same name that
      the server listed under the same type, and its rewritten credentials lead
      exactly to the host and port of that one, in one or two hops. */
  lemma EveryBindingIsRouted(l: Layout, marshal: Environment -> string, v: Visit, env: Environment, seens: seq<Seen>,
                             t: string, i: nat)
    returns (entry: Entry, h: string, steps: nat)
    requires IsPlan(l, marshal, v, env, seens) && Roomy(v) && t in l.services && i < |l.services[t]|
    ensures t in env && entry in env[t] && entry.instanceName in v.names
    ensures entry.instanceName == l.services[t][i].instanceName
    ensures 1 <= steps <= 2 && (t != "redis" ==> steps == 1)
    ensures RoutedTo(NetOf(l.forwards), l.services[t][i].creds, entry.creds, h, steps)
  {
    hide RoutedTo, FinalServices, SetUp, AllSeen, PassAfter, OutcomeOf;
    var k := KeptBinding(l, marshal, v, env, seens, t, i);
    entry, h := v.slots[k].entry, seens[k].remoteHost;
    steps := LiveRoute(v, seens, k);
    assert l.forwards == PassOf(v, seens).forwards;
  }

  /** The same of the objects: while all tunnels are open, the credentials of every
      binding in the listing lead through the open listeners to the host and port
      that the server sent for that name. */
  lemma OpenTunnelsRoute(app: App, v: Visit, env: Environment, seens: seq<Seen>, t: string, i: nat)
    returns (entry: Entry, h: string, steps: nat)
    requires app.HasPlan(v, env, seens) && Roomy(v) && app.AllOpen() && app.LiveNet() == NetOf(app.forwardAddrs)
    requires t in app.services && i < |app.services[t]|
    ensures t in env && entry in env[t] && entry.instanceName in v.names
    ensures entry.instanceName == app.services[t][i].instanceName
    ensures 1 <= steps <= 2 && (t != "redis" ==> steps == 1)
    ensures RoutedTo(app.LiveNet(), app.services[t][i].credentials.entries, entry.creds, h, steps)
  {
    hide RoutedTo, IsPlan, App.AllOpen, App.LiveNet, App.ConfigNow, Roomy, NetOf;
    var l := app.LayoutNow();
    assert l.services[t] == Entries(app.services[t]);
    entry, h, steps := EveryBindingIsRouted(l, app.marshal, v, env, seens, t, i);
    assert l.services[t][i] == EntryOf(app.services[t][i]);
  }

  /** A forward with a TLS port belongs to a redis binding, and the server it leads to
      is the one that binding named before. */
  lemma ForwardWithTLS(v: Visit, seens: seq<Seen>, j: nat) returns (k: nat, h: string)
    requires Roomy(v) && |seens| == |v.slots| && SeenOf(v, seens)
    requires j < |PassOf(v, seens).forwards| && PassOf(v, seens).forwards[j].tlsTunnelPort != 0
    ensures k < |v.slots| && k in PassOf(v, seens).kept && k in PassOf(v, seens).after
    ensures v.slots[k].serviceType == "redis" && MayGet(v.slots[k].entry.creds, ["host", "hostname"], h)
    ensures PortOf(PassOf(v, seens).after[k]) == PassOf(v, seens).forwards[j].tlsTunnelPort
    ensures PassOf(v, seens).forwards[j].remoteAddr == Addr(h, PortOf(v.slots[k].entry.creds))
  {
    hide MayGet, Addr, PortOf, PassAfter, AllSeen, CredsAfter, FirstAt;
    var p := PassOf(v, seens);
    ForwardsFit(v.c, v.names, v.port, v.env, v.slots, seens, |seens|);
    assert Fits(v.c, v.slots, seens, p, j);
    k, h := p.kept[j], seens[p.kept[j]].remoteHost;
    KeptMaySee(v.c, Start(v.names, v.port, v.env), v.slots, seens, |seens|, k);
    Selection(v.c, v.names, v.port, v.env, v.slots, seens, |seens|);
    var at := KeptPort(v.c, v.names, v.port, v.env, v.slots, seens, k);
    assert at == j by { assert p.kept[at] == p.kept[j]; }
  }

  /** A TLS tunnel listens on the port that the credentials of a redis binding were
      rewritten to, and expects the certificate of the host they named before, if
      there is no colon in its name. */
  lemma TLSTunnelExpectsItsServer(app: App, v: Visit, env: Environment, seens: seq<Seen>, t: TLSTunnel)
    returns (k: nat, h: string)
    requires app.HasPlan(v, env, seens) && Roomy(v) && Fronts(t, app.forwardAddrs)
    ensures k < |v.slots| && k in PassOf(v, seens).kept && k in PassOf(v, seens).after
    ensures v.slots[k].serviceType == "redis" && MayGet(v.slots[k].entry.creds, ["host", "hostname"], h)
    ensures t.relay.listen == Addr("localhost", PortOf(PassOf(v, seens).after[k]))
    ensures t.ServerName() == h <==> ':' !in h
  {
    hide MayGet, Addr, PortOf, FinalServices, SetUp, OutcomeOf, Split, SeenOf, PassOf, App.ConfigNow, Values;
    var j :| 0 <= j < |app.forwardAddrs| && app.forwardAddrs[j].tlsTunnelPort != 0
             && t.relay == TLSRelay(app.forwardAddrs[j]) && t.actualAddr == app.forwardAddrs[j].remoteAddr;
    assert app.forwardAddrs == PassOf(v, seens).forwards;
    k, h := ForwardWithTLS(v, seens, j);
    ServerNameIsHostIff(h, PortOf(v.slots[k].entry.creds));
  }

  /** The pass a visit makes. */
  function JobOf(v: Visit): Job
    requires v.port >= 0
  {
    Job(v.c, v.names, v.port, v.env, v.slots)
  }

  /** Two successful set-ups from the same start and the same server answer keep
      the same bindings in the same places. They agree in ports and forwards if the
      plan is fixed, in the credentials and VCAP_SERVICES if the rewrites are, which
      a fixed plan implies, and in all other variables but MYSQL_HOME if the lookups
      for the program's own binding are; that one can differ for a MySQL program only. */
  lemma TwoRunsAgree(a: Layout, b: Layout, marshal: Environment -> string, v: Visit, w: Visit, env: Environment,
                     seensV: seq<Seen>, seensW: seq<Seen>)
    requires IsPlan(a, marshal, v, env, seensV) && IsPlan(b, marshal, w, env, seensW)
    requires v.c == w.c && v.names == w.names && v.port == w.port >= 0 && v.env == w.env && v.forwards == w.forwards
    ensures v.slots == w.slots && PassOf(v, seensV).kept == PassOf(w, seensW).kept
    ensures AllFixed(JobOf(v)) ==> RewritesFixed(JobOf(v)) && a.nextPort == b.nextPort && a.forwards == b.forwards
    ensures RewritesFixed(JobOf(v)) ==>
      && a.services == b.services
      && "VCAP_SERVICES" in a.env && "VCAP_SERVICES" in b.env && a.env["VCAP_SERVICES"] == b.env["VCAP_SERVICES"]
    ensures ClientFixed(JobOf(v)) ==>
      && Vars(a.env) - {"VCAP_SERVICES"} == Vars(b.env) - {"VCAP_SERVICES"}
      && (!UsesMySQL(v.c) ==> a.env - {"VCAP_SERVICES"} == b.env - {"VCAP_SERVICES"})
  {
    hide MayGet, AllSeen, PassAfter, Slots, FinalServices, AllFixed, RewritesFixed, ClientFixed, UsesMySQL, OutcomeOf;
    hide Vars;
    PlanIsDetermined(v.c, v.names, v.port, v.env, env, v.keys, w.keys, seensV, seensW);
    if AllFixed(JobOf(v)) { FixedPlanHasFixedRewrites(JobOf(v)); }
    if RewritesFixed(JobOf(v)) {
      SameRewrites(JobOf(v), seensV, seensW);
      SameFinalServices(v.slots, PassOf(v, seensV), PassOf(w, seensW));
    }
    if ClientFixed(JobOf(v)) {
      EnvIsFixed(JobOf(v), seensV, seensW);
      VarsWithout(PassOf(v, seensV).env, marshal(a.services));
      VarsWithout(PassOf(w, seensW).env, marshal(b.services));
    }
  }

  lemma VarsWithout(env: map<string, string>, json: string)
    ensures env["VCAP_SERVICES" := json] - {"VCAP_SERVICES"} == env - {"VCAP_SERVICES"}
    ensures Vars(env["VCAP_SERVICES" := json]) - {"VCAP_SERVICES"} == Vars(env) - {"VCAP_SERVICES"}
  {
  }

  lemma SameFinalServices(slots: seq<Slot>, p: Pass, q: Pass)
    requires p.kept == q.kept && p.after == q.after && Keepable(slots, p, p.kept)
    ensures FinalServices(slots, p) == FinalServices(slots, q)
  {
    assert forall t | t in TypesOf(slots, p.kept) ::
      KeptEntries(slots, p, KeptOf(slots, p.kept, t)) == KeptEntries(slots, q, KeptOf(slots, p.kept, t));
  }

  /** The text made of these lines. */
  function Lines(ls: seq<string>): string {
    if ls == [] then "" else ls[0] + "\n" + Lines(ls[1..])
  }

  lemma {:induction false} LinesAppend(a: seq<string>, b: seq<string>)
    ensures Lines(a + b) == Lines(a) + Lines(b)
  {
    if a == [] {
      assert a + b == b;
    } else {
      LinesAppend(a[1..], b);
      assert (a + b)[1..] == a[1..] + b;
    }
  }

  /** How one section of my.cnf logs in, line by line. */
  function LoginLines(login: Login, port: int): seq<string> {
    ["user = " + login.user, "password = " + login.password, "host = " + login.host, "port = " + Decimal(port)]
  }

  lemma TwoLines(a: string, b: string)
    ensures Lines([a]) == Line(a) && Lines([a, b]) == Line(a) + Line(b)
  {
    assert [a][1..] == [] && [a, b][1..] == [b] && [b][1..] == [];
    assert Lines([b]) == b + "\n" + Lines([]) == Line(b);
    assert Lines([a, b]) == a + "\n" + Lines([b]);
  }

  lemma LoginIsLines(login: Login, port: int)
    ensures login.Text(port) == Lines(LoginLines(login, port))
  {
    hide Decimal, Line, Lines;
    var ls := LoginLines(login, port);
    TwoLines(ls[0], ls[1]);
    TwoLines(ls[2], ls[3]);
    LinesAppend([ls[0], ls[1]], [ls[2], ls[3]]);
    assert ls == [ls[0], ls[1]] + [ls[2], ls[3]];
  }

  /** my.cnf, line by line. */
  function MyCnfLines(mysql: Login, database: string, dump: Login, port: int): seq<string> {
    ["[mysql]"] + LoginLines(mysql, port) + ["database = " + database, "[mysqldump]"] + LoginLines(dump, port)
  }

  lemma MyCnfIsLines(mysql: Login, database: string, dump: Login, port: int)
    ensures MyCnf(mysql, database, dump, port) == Lines(MyCnfLines(mysql, database, dump, port))
  {
    hide Decimal, Login.Text, Lines, Line, LoginLines;
    var head, middle := ["[mysql]"], ["database = " + database, "[mysqldump]"];
    LoginIsLines(mysql, port);
    LoginIsLines(dump, port);
    LinesAppend(head, LoginLines(mysql, port));
    LinesAppend(head + LoginLines(mysql, port), middle);
    LinesAppend(head + LoginLines(mysql, port) + middle, LoginLines(dump, port));
    TwoLines("[mysql]", "");
    TwoLines("database = " + database, "[mysqldump]");
  }

  /** The variable has a value that looking for these names can answer. */
  ghost predicate SetFrom(env: map<string, string>, name: string, m: Bindings, keys: seq<string>) {
    name in env && MayGet(m, keys, env[name])
  }

  /** What a section of my.cnf logs in with. */
  ghost predicate LogsIn(m: Bindings, login: Login) {
    && MayGet(m, ["user", "username"], login.user) && MayGet(m, ["password", "passwd", "pwd"], login.password)
    && MayGet(m, ["host", "hostname"], login.host)
  }

  ghost predicate SpellsMyCnf(m: Bindings, port: int, text: string) {
    exists mysql, database, dump ::
      && LogsIn(m, mysql) && MayGet(m, ["database", "db", "name"], database) && LogsIn(m, dump)
      && text == Lines(MyCnfLines(mysql, database, dump, port))
  }

  /** MYSQL_HOME is set exactly if my.cnf was written, and then it is the directory
      made for it. */
  ghost predicate ToldByFile(m: Bindings, port: int, env: map<string, string>, files: seq<Event>) {
    || (files == [Did(MakeDir(""), false)] && "MYSQL_HOME" !in env)
    || exists dir, text, ok :: files == [Did(MakeDir(dir), true), Did(WriteFile(dir, "my.cnf", text), ok)]
                               && dir != "" && SpellsMyCnf(m, port, text)
                               && if ok then "MYSQL_HOME" in env && env["MYSQL_HOME"] == dir else "MYSQL_HOME" !in env
  }

  /** All that a program of this kind is told about the service with these rewritten
      credentials: in its variables, in its arguments, or in the file it reads. */
  ghost predicate Told(kind: Kind, m: Bindings, port: int, env: map<string, string>, extra: seq<string>,
                       files: seq<Event>) {
    match kind
    case Postgres =>
      && "PGPORT" in env && env["PGPORT"] == Decimal(port) && SetFrom(env, "PGHOST", m, ["host", "hostname"])
      && SetFrom(env, "PGDATABASE", m, ["database", "db", "name"]) && SetFrom(env, "PGUSER", m, ["user", "username"])
      && SetFrom(env, "PGPASSWORD", m, ["password", "passwd", "pwd"]) && extra == [] && files == []
    case Redis =>
      && files == []
      && exists host, password :: MayGet(m, ["host", "hostname"], host)
                                  && MayGet(m, ["password", "passwd", "pwd"], password)
                                  && extra == ["-h", host, "-p", Decimal(port), "-a", password]
    case InfluxDB =>
      && SetFrom(env, "INFLUX_USERNAME", m, ["user", "username"])
      && SetFrom(env, "INFLUX_PASSWORD", m, ["password", "passwd", "pwd"]) && files == []
      && exists host, database ::
           && MayGet(m, ["host", "hostname"], host) && MayGet(m, ["database", "db", "name"], database)
           && extra == ["-host", host, "-port", Decimal(port), "-database", database, "-ssl", "-unsafeSsl"]
    case MySQL =>
      extra == [] && ToldByFile(m, port, env, files)
  }

  lemma MyCnfIsSpelled(m: Bindings, text: string)
    requires MayBeMyCnf(m, text)
    ensures SpellsMyCnf(m, PortOf(m), text)
  {
    hide MayGet, MyCnf, MyCnfLines, Lines, PortOf;
    var mysql, database, dump :| MayLogin(m, mysql) && MayGet(m, DATABASE_KEYS, database) && MayLogin(m, dump)
                                 && text == MyCnf(mysql, database, dump, PortOf(m));
    MyCnfIsLines(mysql, database, dump, PortOf(m));
  }

  lemma FileTells(a: Config, b: Config, t: string, m: Bindings, env: map<string, string>, more: map<string, string>,
                  files: seq<Event>)
    requires t in a.providers && t in b.providers && Wrote(a, b, t, m, env, more, files) && "MYSQL_HOME" !in env
    requires a.providers[t].kind == MySQL && a.providers[t].serviceCnt == 0
    ensures ToldByFile(m, PortOf(m), more, files)
  {
    hide MayBeMyCnf, PortOf, SpellsMyCnf;
    var dir := b.providers[t].workDir;
    var ok :| WritesMyCnf(m, files, dir, ok) && more == if ok then env + map["MYSQL_HOME" := dir] else env;
    if dir != "" {
      var text :| MayBeMyCnf(m, text) && files == [Did(MakeDir(dir), true), Did(WriteFile(dir, "my.cnf", text), ok)];
      MyCnfIsSpelled(m, text);
    }
  }

  /** What `InitEnv` and `AdditionalProgramArgs` do, together. */
  lemma KindIsTold(a: Config, b: Config, t: string, m: Bindings, env: map<string, string>, writes: map<string, string>,
                   extra: seq<string>, files: seq<Event>)
    requires t in a.providers && t in b.providers && a.providers[t].serviceCnt == 0 && "MYSQL_HOME" !in env
    requires MayInitEnv(a.providers[t], m, writes) && MayAddArgs(a.providers[t].kind, Some(m), extra)
    requires Wrote(a, b, t, m, env, env + writes, files)
    ensures Told(a.providers[t].kind, m, PortOf(m), env + writes, extra, files)
  {
    hide MayGet, Decimal, PortOf, WritesMyCnf, ToldByFile;
    match a.providers[t].kind {
      case MySQL => FileTells(a, b, t, m, env, env + writes, files);
      case _ =>
    }
  }

  lemma SameArgs(a: Config, b: Config, services: Environment, args: seq<string>)
    requires SameKinds(a, b)
    ensures ValidTypes(a) == ValidTypes(b) && (MayGetArgs(a, services, args) <==> MayGetArgs(b, services, args))
  {
    hide KnownClients, MayAddArgs;
  }

  /** The one type that knows the program is the one that adds the arguments. */
  lemma ArgsOfOnlyType(c: Config, services: Environment, args: seq<string>, t: string)
    requires ValidTypes(c) == {t} && MayGetArgs(c, services, args)
    ensures t in c.providers && MayAddArgs(c.providers[t].kind, FirstCreds(services, t), args)
  {
    hide KnownClients, MayAddArgs;
    assert t in ValidTypes(c);
    var u :| u in ValidTypes(c) && MayAddArgs(c.providers[u].kind, FirstCreds(services, u), args);
  }

  lemma PassIsTold(v: Visit, seens: seq<Seen>, config: Config, t: string, extra: seq<string>, files: seq<Event>)
    returns (j: nat)
    requires Roomy(v) && |seens| == |v.slots| && SeenOf(v, seens) && v.c.providers == REGISTERED
    requires v.c.program != "" && ValidTypes(v.c) == {t} && "MYSQL_HOME" !in v.env
    requires var p := PassOf(v, seens);
      && p.stopped.None? && OutcomeOf(v.c, v.slots, p) == Outcome.Planned && Keepable(v.slots, p, p.kept)
      && MayAddArgs(v.c.providers[t].kind, FirstCreds(FinalServices(v.slots, p), t), extra)
      && Configured(v, p, config, files)
    ensures t in v.c.providers
    ensures var p := PassOf(v, seens);
      && p.client.Some? && ForwardFor(p, p.client.value, j) && p.client.value in p.after
      && FirstOfOnlyType(v.c, v.slots, p, p.client.value)
      && Told(v.c.providers[t].kind, p.after[p.client.value], p.forwards[j].ConnectPort(), p.env, extra, files)
  {
    hide MayGet, FinalServices, AllSeen, PassAfter, OutcomeOf, MayBeMyCnf, MyCnf, Told, Wrote, MayAddArgs, MayInitEnv;
    hide FirstCreds, KnownClients, KeptOf;
    assert t in ValidTypes(v.c);
    RegisteredAreDistinct(v.c.program);
    ClientIsFirstOfItsType(v.c, v.names, v.port, v.env, v.slots, seens);
    ClientIsFirst(v.c, v.names, v.port, v.env, v.slots, seens, |v.slots|);
    ClientIsSeen(v.c, v.names, v.port, v.env, v.slots, seens, |v.slots|);
    var p := PassOf(v, seens);
    var i := p.client.value;
    assert v.slots[i].serviceType in ValidTypes(v.c);
    j := KeptPort(v.c, v.names, v.port, v.env, v.slots, seens, i);
    FirstCredsOfClient(v.c, v.slots, p, i);
    KindIsTold(v.c, config, t, p.after[i], v.env, seens[i].writes, extra, files);
  }

  lemma FirstCredsOfClient(c: Config, slots: seq<Slot>, p: Pass, i: nat)
    requires FirstOfOnlyType(c, slots, p, i) && Keepable(slots, p, p.kept) && i in p.after
    ensures FirstCreds(FinalServices(slots, p), slots[i].serviceType) == Some(p.after[i])
  {
    var j :| 0 <= j < |p.kept| && p.kept[j] == i;
    assert slots[p.kept[j]].serviceType in TypesOf(slots, p.kept);
  }

  /** The port of the `j`-th forward leads to where its binding led before. */
  ghost predicate ServerPort(v: Visit, seens: seq<Seen>, fs: seq<ForwardAddrs>, j: nat, h: string, steps: nat)
    requires |seens| == |v.slots|
  {
    && j < |fs| == |PassOf(v, seens).kept| && PassOf(v, seens).kept[j] < |v.slots|
    && LeadsOnlyTo(NetOf(fs), fs[j].ConnectPort(), v.slots[PassOf(v, seens).kept[j]].entry.creds, h, steps)
  }

  lemma ForwardServes(v: Visit, seens: seq<Seen>, j: nat) returns (h: string, steps: nat)
    requires Roomy(v) && |seens| == |v.slots| && SeenOf(v, seens) && j < |PassOf(v, seens).kept|
    ensures ServerPort(v, seens, PassOf(v, seens).forwards, j, h, steps)
  {
    hide LeadsOnlyTo, NetOf, PortOf, PassAfter, AllSeen, WantsTLS, FirstAt;
    var p := PassOf(v, seens);
    Selection(v.c, v.names, v.port, v.env, v.slots, seens, |seens|);
    var k := p.kept[j];
    assert k in p.kept;
    var at := KeptPort(v.c, v.names, v.port, v.env, v.slots, seens, k);
    assert at == j by { assert p.kept[at] == p.kept[j]; }
    h := seens[k].remoteHost;
    steps := LiveRoute(v, seens, k);
  }

  /** The variables do not include the one with the listing. */
  lemma StillTold(kind: Kind, m: Bindings, port: int, env: map<string, string>, extra: seq<string>, files: seq<Event>,
                  json: string)
    requires Told(kind, m, port, env, extra, files)
    ensures Told(kind, m, port, env["VCAP_SERVICES" := json], extra, files)
  {
    hide MayGet, Decimal, SpellsMyCnf;
    assert "MYSQL_HOME" != "VCAP_SERVICES";
  }

  /** The binding that is left first under the one type that speaks the program. */
  ghost predicate TellsOf(v: Visit, seens: seq<Seen>, j: nat, t: string)
    requires |seens| == |v.slots|
  {
    var p := PassOf(v, seens);
    && j < |p.kept| && FirstOfOnlyType(v.c, v.slots, p, p.kept[j]) && p.kept[j] in p.after
    && ValidTypes(v.c) == {t} && t in v.c.providers && v.slots[p.kept[j]].serviceType == t
  }

  /** The program that is run speaks exactly one of the registered types. It is told
      the user, password and database that the credentials of the first binding left
      of that type give, their host, which is this machine, and a port that leads to
      the server of that binding, and nowhere else. */
  lemma ProgramIsTold(l: Layout, marshal: Environment -> string, v: Visit, env: Environment, seens: seq<Seen>,
                      extra: seq<string>, files: seq<Event>)
    returns (t: string, j: nat, h: string, steps: nat)
    requires IsPlan(l, marshal, v, env, seens) && Configured(v, PassOf(v, seens), l.config, files) && Roomy(v)
    requires v.c.program != "" && v.c.providers == REGISTERED && "MYSQL_HOME" !in v.env
    requires MayGetArgs(l.config, l.services, extra)
    ensures TellsOf(v, seens, j, t) && ServerPort(v, seens, l.forwards, j, h, steps)
    ensures var m := PassOf(v, seens).after[PassOf(v, seens).kept[j]];
      && Told(v.c.providers[t].kind, m, l.forwards[j].ConnectPort(), l.env, extra, files)
      && forall host | MayGet(m, ["host", "hostname"], host) ::
           host == if HasHostKey(v.slots[PassOf(v, seens).kept[j]].entry.creds) then "127.0.0.1" else ""
  {
    hide KnownClients, MayAddArgs, MayGet, FinalServices, KeptOf, MayGetArgs, AllSeen, PassAfter, ValidTypes, Told;
    hide MayBeMyCnf, MyCnf, LeadsOnlyTo, SetUp, OutcomeOf, FirstOfOnlyType, Configured;
    var p := PassOf(v, seens);
    SameArgs(l.config, v.c, l.services, extra);
    RegisteredAreDistinct(v.c.program);
    ClientIsFirstOfItsType(v.c, v.names, v.port, v.env, v.slots, seens);
    t := ClientType(v, seens);
    ArgsOfOnlyType(v.c, l.services, extra, t);
    j := PassIsTold(v, seens, l.config, t, extra, files);
    StillTold(v.c.providers[t].kind, p.after[p.kept[j]], p.forwards[j].ConnectPort(), p.env, extra, files,
              marshal(l.services));
    h, steps := ForwardServes(v, seens, j);
    assert l.forwards == p.forwards;
    LocalHost(v, seens, p.kept[j]);
  }

  lemma ClientType(v: Visit, seens: seq<Seen>) returns (t: string)
    requires |seens| == |v.slots| && PassOf(v, seens).client.Some?
    requires FirstOfOnlyType(v.c, v.slots, PassOf(v, seens), PassOf(v, seens).client.value)
    ensures ValidTypes(v.c) == {t} && v.slots[PassOf(v, seens).client.value].serviceType == t
  {
    t := v.slots[PassOf(v, seens).client.value].serviceType;
  }

  lemma LocalHost(v: Visit, seens: seq<Seen>, k: nat)
    requires Roomy(v) && |seens| == |v.slots| && SeenOf(v, seens)
    requires k in PassOf(v, seens).kept && k in PassOf(v, seens).after && k < |v.slots|
    ensures forall host | MayGet(PassOf(v, seens).after[k], ["host", "hostname"], host) ::
      host == if HasHostKey(v.slots[k].entry.creds) then "127.0.0.1" else ""
  {
    hide MayGet, LeadsOnlyTo, PassAfter, AllSeen;
    var steps := LiveRoute(v, seens, k);
  }

  /** The same of a whole run: the recorded command names a port that leads exactly
      to the server of the first binding of its type that was sent. */
  lemma RunTellsTheProgram(f: Flags, names: seq<string>, runArgs: seq<string>, l: Layout, r: Run, ok: bool,
                           marshal: Environment -> string, v: Visit, seens: seq<Seen>)
    returns (extra: seq<string>, t: string, j: nat, h: string, steps: nat)
    requires InOrder(f, names, runArgs, l, r, ok) && r.command != [] && runArgs[0] != ""
    requires r.fetch != [] && r.fetch[0].call.GetAppEnv? && IsPlan(l, marshal, v, r.fetch[0].call.fetched, seens)
    requires Configured(v, PassOf(v, seens), l.config, r.files)
    requires Roomy(v) && v.c == Config(runArgs[0], REGISTERED) && "MYSQL_HOME" !in v.env
    ensures r.command[0].call == RunProgram(runArgs[0], extra + runArgs[1..], l.env)
    ensures TellsOf(v, seens, j, t) && ServerPort(v, seens, l.forwards, j, h, steps)
    ensures Told(v.c.providers[t].kind, PassOf(v, seens).after[PassOf(v, seens).kept[j]],
                 l.forwards[j].ConnectPort(), l.env, extra, r.files)
  {
    hide IsPlan, FirstOfOnlyType, Told, ValidTypes, MayGetArgs, LeadsOnlyTo, Configured, PlanStage, SetUpStage, MayGet;
    extra :| MayGetArgs(l.config, l.services, extra)
             && r.command[0].call == RunProgram(runArgs[0], extra + runArgs[1..], l.env);
    t, j, h, steps := ProgramIsTold(l, marshal, v, r.fetch[0].call.fetched, seens, extra, r.files);
  }
}
