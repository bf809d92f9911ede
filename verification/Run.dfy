/** conduit.go:50-158: one run of the command, from its flags to the teardown. */
module Command {
  import opened Outside
  import opened Services
  import opened Plan
  import opened Routing
  import opened Tunnels
  import opened Lifecycle
  import opened ProgramView
  import opened Visiting
  import opened Conduit

  /** A newly made application object. */
  predicate Unused(app: App)
    reads app
  {
    app.appGUID == "" && app.tunnel == null && app.tlsTunnels == []
  }

  /** The stages of a run up to the end of the program, and nothing torn down yet. */
  const NO_ENDING: Ending := Ending([], [], [], [], true)

  /** Creates or finds the app. */
  method Prepare(app: App, f: Flags) returns (ok: bool, ghost es: seq<Event>)
    requires Unused(app)
    modifies app.world, app`appGUID
    ensures app.world.trace == old(app.world.trace) + es && es != []
    ensures PrepareStage(f, app.names, es, ok) && app.appGUID == AppIn(es)
  {
    hide Borrowed, Deployed;
    if f.existingApp {
      ok, es := app.PrepareForExistingApp();
      BorrowedUntouched(app.names, es, ok);
    } else {
      ghost var binding, groups;
      ok, es, binding, groups := app.DeployApp();
      FirstCreates(app.appGUID, app.names, es, binding, groups, ok);
      DeployedUntouched(app.appGUID, app.names, es, binding, groups, ok);
      assert Deployed(AppIn(es), app.names, es, binding, groups, ok);
    }
  }

  /** The providers are the four that conduit registers, unused. */
  predicate Registers(app: App)
    reads app, app.providers.Values
  {
    app.ConfigNow() == Config(app.program, REGISTERED)
  }

  /** The directory made while planning is the one MySQL's provider will remove. */
  ghost predicate HoldsDir(app: App, files: seq<Event>)
    reads app, app.providers.Values
  {
    FilesStage(files) && DirsIn(app.ConfigNow()) == DirsMade(files)
  }

  lemma NoDirs(app: App)
    requires Registers(app)
    ensures HoldsDir(app, [])
  {
  }

  /** Plans, and opens the tunnels for the app. */
  method Connect(app: App)
    returns (ok: bool, ghost fetch: seq<Event>, ghost files: seq<Event>, ghost setup: seq<Event>,
             ghost secure: seq<Event>, ghost v: Visit, ghost seens: seq<Seen>)
    requires app.tunnel == null && app.tlsTunnels == [] && Registers(app)
    modifies app.world, app, app.providers.Values
    ensures app.world.trace == old(app.world.trace) + fetch + files + setup + secure
    ensures app.appGUID == old(app.appGUID) && app.providers == old(app.providers)
    ensures PlanStage(app.appGUID, fetch, files) && SetUpStage(app.forwardAddrs, fetch[0].ok, setup, secure, ok)
    ensures ok ==> app.AllOpen() && app.LiveNet() == NetOf(app.forwardAddrs)
    ensures ok || setup != [] ==>
      && app.HasPlan(v, fetch[0].call.fetched, seens) && From(v, app.names, old(app.FieldsNow()), v.original)
      && Configured(v, PassOf(v, seens), app.ConfigNow(), files)
    ensures Opened(secure) == Addresses(TLSRelaysOf(app.tlsTunnels)) && forall t | t in app.tlsTunnels :: t.hasListener
    ensures HasListeners(app.tunnel, app.forwardAddrs, setup) && HoldsDir(app, files)
    ensures app.tunnel != null ==> fresh(app.tunnel) && fresh(app.tunnel.listeners)
  {
    hide StopsAtFailure, ListenEvents, WaitEvents, TLSEvents, Opened, Addresses, HasListeners, DirsIn;
    hide App.HasPlan, App.LiveNet, App.AllOpen, NetOf, App.ConfigNow, Configured, SameKinds, FilesStage;
    var outcome;
    ghost var env;
    NoDirs(app);
    ok, outcome, env, files, setup, secure, v, seens := app.SetupTunnels();
    fetch := [Did(GetAppEnv(app.appGUID, env), outcome != FetchFailed)];
    NoTLSYet([]);
    NothingHeld();
    if outcome != FetchFailed { PlanningFiles(v, PassOf(v, seens), app.ConfigNow(), files); }
  }

  /** The run so far is in order, and what it opened is in the application object. */
  ghost predicate Underway(app: App, f: Flags, l: Layout, r: Run, ok: bool)
    reads app, app.tlsTunnels, app.tunnel, app.SSHListeners(), app.providers.Values
  {
    && InOrder(f, app.names, app.runArgs, l, r, ok) && app.appGUID == AppOf(r)
    && Opened(r.secure) == Addresses(TLSRelaysOf(app.tlsTunnels)) && (forall t | t in app.tlsTunnels :: t.hasListener)
    && HasListeners(app.tunnel, l.forwards, r.setup) && HoldsDir(app, r.files)
  }

  /** Planning worked: the run went on to open tunnels, or had none to open. */
  predicate HasPlanned(runArgs: seq<string>, r: Run, ok: bool) {
    Connected(runArgs, r, ok) || r.setup != []
  }

  /** A run that has planned did so for what the server sent, from these fields,
      whether or not the tunnels could be opened then. */
  ghost predicate FollowsPlan(app: App, w: Fields, l: Layout, r: Run, ok: bool, v: Visit, seens: seq<Seen>) {
    HasPlanned(app.runArgs, r, ok) ==>
      && r.fetch != [] && r.fetch[0].call.GetAppEnv?
      && IsPlan(l, app.marshal, v, r.fetch[0].call.fetched, seens) && From(v, app.names, w, v.original)
      && Configured(v, PassOf(v, seens), l.config, r.files)
  }

  /** Runs the program while every planned listener is open. */
  method RunProgram(app: App) returns (ok: bool, ghost es: seq<Event>)
    requires app.runArgs != [] && app.program == app.runArgs[0]
    requires app.AllOpen() && app.LiveNet() == NetOf(app.forwardAddrs)
    modifies app.world
    ensures app.world.trace == old(app.world.trace) + es && CommandStage(app.runArgs, app.LayoutNow(), es, ok)
    ensures app.AllOpen() && app.LayoutNow() == old(app.LayoutNow()) && app.ConfigNow() == old(app.ConfigNow())
    ensures forall fs, es | old(HasListeners(app.tunnel, fs, es)) :: HasListeners(app.tunnel, fs, es)
  {
    hide MayGetArgs, App.LayoutNow;
    ghost var extra;
    ok, extra := app.RunCommand();
    es := [Did(Call.RunProgram(app.program, extra + app.runArgs[1..], app.LayoutNow().env), ok)];
  }

  /** The last stages: the tunnels, then the program if there is one; without one
      the run waits to be interrupted. */
  ghost predicate Served(app: App, w: Fields, guid: string, l: Layout, r: Run, ok: bool, v: Visit, seens: seq<Seen>) {
    && PlanStage(guid, r.fetch, r.files)
    && SetUpStage(l.forwards, r.fetch[0].ok, r.setup, r.secure, Connected(app.runArgs, r, ok))
    && (if r.command == [] then ok == Connected(app.runArgs, r, ok) else CommandStage(app.runArgs, l, r.command, ok))
    && FollowsPlan(app, w, l, r, ok, v, seens)
  }

  method Serve(app: App, ghost before: Run) returns (ok: bool, ghost r: Run, ghost v: Visit, ghost seens: seq<Seen>)
    requires app.tunnel == null && app.tlsTunnels == [] && Registers(app)
    requires app.program == (if app.runArgs == [] then "" else app.runArgs[0])
    modifies app.world, app, app.providers.Values
    ensures r == before.(fetch := r.fetch, files := r.files, setup := r.setup, secure := r.secure, command := r.command)
    ensures app.world.trace == old(app.world.trace) + r.fetch + r.files + r.setup + r.secure + r.command
    ensures Served(app, old(app.FieldsNow()), app.appGUID, app.LayoutNow(), r, ok, v, seens)
    ensures app.appGUID == old(app.appGUID) && app.providers == old(app.providers)
    ensures Opened(r.secure) == Addresses(TLSRelaysOf(app.tlsTunnels))
    ensures forall t | t in app.tlsTunnels :: t.hasListener
    ensures HasListeners(app.tunnel, app.LayoutNow().forwards, r.setup) && HoldsDir(app, r.files)
    ensures app.tunnel != null ==> fresh(app.tunnel) && fresh(app.tunnel.listeners)
    ensures ok ==> app.AllOpen()
  {
    hide HasListeners, Opened, SetUpStage, CommandStage, IsPlan, From, NetOf, App.AllOpen, App.LiveNet, App.FieldsNow;
    hide Configured, FilesStage, DirsIn, DirsMade, App.ConfigNow, PassOf;
    ghost var fetch, files, setup, secure, command;
    ok, fetch, files, setup, secure, v, seens := Connect(app);
    command := [];
    if ok && app.runArgs != [] {
      ok, command := RunProgram(app);
      RanProgram(app.runArgs, app.LayoutNow(), command, ok);
    }
    r := before.(fetch := fetch, files := files, setup := setup, secure := secure, command := command);
  }

  lemma RanProgram(runArgs: seq<string>, l: Layout, es: seq<Event>, ok: bool)
    requires CommandStage(runArgs, l, es, ok)
    ensures es != []
  {
  }

  const NO_VISIT: Visit := Visit(Config("", map[]), [], 0, map[], [], [], map[], [], [], [])

  /** The first two stages, and whether they worked. */
  ghost predicate Started(f: Flags, names: seq<string>, r: Run, ok: bool) {
    && r == NOTHING.(init := r.init, prepare := r.prepare)
    && StopsAtFailure(INIT_EVENTS, r.init, r.prepare != [])
    && if r.prepare == [] then !ok else PrepareStage(f, names, r.prepare, ok)
  }

  method StartRun(app: App, f: Flags) returns (ok: bool, ghost r: Run)
    requires Unused(app)
    modifies app.world, app`appGUID
    ensures app.world.trace == old(app.world.trace) + r.init + r.prepare
    ensures Started(f, app.names, r, ok) && app.appGUID == AppOf(r)
  {
    hide StopsAtFailure, PrepareStage;
    r := NOTHING;
    ghost var es;
    ok, es := app.Init();
    r := r.(init := es);
    if ok {
      ok, es := Prepare(app, f);
      r := r.(prepare := es);
    }
  }

  /** Everything between making the application object and tearing it down, up to
      the first failure. */
  method Session(app: App, f: Flags) returns (ok: bool, ghost r: Run, ghost v: Visit, ghost seens: seq<Seen>)
    requires Unused(app) && app.program == (if app.runArgs == [] then "" else app.runArgs[0]) && Registers(app)
    modifies app.world, app, app.providers.Values
    ensures app.world.trace == old(app.world.trace) + Stages(r)
    ensures Underway(app, f, app.LayoutNow(), r, ok) && app.providers == old(app.providers)
    ensures FollowsPlan(app, old(app.FieldsNow()), app.LayoutNow(), r, ok, v, seens)
    ensures app.tunnel != null ==> fresh(app.tunnel) && fresh(app.tunnel.listeners)
    ensures ok ==> app.AllOpen()
  {
    hide HasListeners, Opened, StopsAtFailure, PrepareStage, SetUpStage, CommandStage, IsPlan, From, App.AllOpen;
    hide App.LayoutNow, App.FieldsNow, Configured, FilesStage, DirsIn, DirsMade, App.ConfigNow, PassOf;
    v, seens := NO_VISIT, [];
    NoTLSYet([]);
    NothingHeld();
    NoDirs(app);
    ok, r := StartRun(app, f);
    if ok {
      ok, r, v, seens := Serve(app, r);
    }
  }

  const PROVIDER_NAMES: set<string> := {"mysql", "postgres", "redis", "influxdb"}

  /** The four providers, unused. */
  ghost predicate FourProviders(ps: map<string, Provider>)
    reads ps.Values
  {
    && ps.Keys == PROVIDER_NAMES
    && ps["mysql"].State() == ProviderState(MySQL, 0, "") && ps["postgres"].State() == ProviderState(Postgres, 0, "")
    && ps["redis"].State() == ProviderState(Redis, 0, "") && ps["influxdb"].State() == ProviderState(InfluxDB, 0, "")
  }

  method RegisterProviders(app: App)
    requires app.providers == map[]
    modifies app`providers
    ensures fresh(app.providers.Values) && FourProviders(app.providers)
  {
    var mysql := new Provider(MySQL);
    var postgres := new Provider(Postgres);
    var redis := new Provider(Redis);
    var influxdb := new Provider(InfluxDB);
    app.RegisterServiceProvider("mysql", mysql);
    app.RegisterServiceProvider("postgres", postgres);
    app.RegisterServiceProvider("redis", redis);
    app.RegisterServiceProvider("influxdb", influxdb);
  }

  lemma Registered(app: App)
    requires FourProviders(app.providers)
    ensures app.ConfigNow() == Config(app.program, REGISTERED)
  {
    assert app.ConfigNow().providers.Keys == REGISTERED.Keys;
    assert forall t | t in REGISTERED :: app.ConfigNow().providers[t] == REGISTERED[t];
  }

  /** The application object with its four providers. */
  method NewApp(world: World, f: Flags, localPort: int, names: seq<string>, runArgs: seq<string>,
                marshal: Environment -> string)
    returns (app: App)
    ensures fresh(app) && fresh(app.providers.Values) && app.providers.Keys == PROVIDER_NAMES
    ensures app.world == world && Unused(app)
    ensures app.deleteApp <==> !f.noDelete && !f.reuse && !f.existingApp
    ensures app.names == names && app.runArgs == runArgs && app.marshal == marshal
    ensures app.nextPort == localPort && app.forwardAddrs == [] && app.runEnv == map[]
    ensures app.program == (if runArgs == [] then "" else runArgs[0]) && Registers(app)
  {
    hide FourProviders;
    var noDelete := f.noDelete || f.reuse || f.existingApp;
    app := new App(world, localPort, !noDelete, names, runArgs, marshal);
    RegisterProviders(app);
    Registered(app);
  }

  const NOTHING: Run := Run([], [], [], [], [], [], [], NO_ENDING)

  lemma NothingIsValid(f: Flags)
    ensures ValidRun(f, NOTHING) && Calls(NOTHING) == []
  {
  }

  /** A full teardown of what the run has opened, of the directory made while
      planning, and of the app if there is one and no flag protects it. */
  ghost predicate EndsFully(app: App, f: Flags, r: Run, e: Ending)
    reads app
  {
    var destroys := !Protects(f) && AppOf(r) != "";
    FullEnding(e, Opened(r.secure), app.tunnel != null, DirsMade(r.files), destroys, AppOf(r))
  }

  lemma Ends(app: App, f: Flags, l: Layout, r: Run, ok: bool, ending: Ending)
    requires InOrder(f, app.names, app.runArgs, l, r, ok)
    requires FilesStage(r.files) && EndsFully(app, f, r, ending)
    ensures ValidRun(f, r.(ending := ending)) && InOrder(f, app.names, app.runArgs, l, r.(ending := ending), ok)
  {
    hide StopsAtFailure, PrepareStage, SetUpStage, CommandStage;
    StagesAreValid(f, app.names, app.runArgs, l, r, ok);
    var destroys := !Protects(f) && AppOf(r) != "";
    EndingUntouched(ending, Opened(r.secure), app.tunnel != null, DirsMade(r.files), destroys, AppOf(r));
    CleansOne(ending.providers, r.files);
  }

  /** What a run leaves behind once everything is torn down. */
  ghost predicate Over(app: App, f: Flags, l: Layout, r: Run, ok: bool)
    reads app, app.tunnel, app.SSHListeners()
  {
    && ValidRun(f, r) && InOrder(f, app.names, app.runArgs, l, r, ok)
    && EndsFully(app, f, r, r.ending)
    && Released(app.tunnel, l.forwards, r.setup)
  }

  /** At the end of any run an SSH listener is open exactly if `Start` had failed
      after opening one; so none is when all tunnels had been opened, whatever the
      program did then. */
  lemma LeftOpenIff(app: App, f: Flags, l: Layout, r: Run, ok: bool)
    requires Over(app, f, l, r, ok)
    ensures (exists x :: x in app.SSHListeners() && x.open) <==> OpenedInPart(l.forwards, r.setup)
    ensures Connected(app.runArgs, r, ok) ==> !OpenedInPart(l.forwards, r.setup)
  {
    hide ValidRun, FullEnding, PrepareStage, CommandStage, ListenEvents, WaitEvents, Opened;
    if OpenedInPart(l.forwards, r.setup) {
      assert app.tunnel != null && |Addresses(RelaysOf(app.tunnel.listeners))| > 0;
      assert app.tunnel.listeners[0] in app.SSHListeners();
    }
  }

  /** The deferred teardown, after the session whose stages `before` records. */
  method TearDown(app: App, f: Flags, ghost l: Layout, ghost before: Run, ghost ok: bool) returns (ghost r: Run)
    requires Underway(app, f, l, before, ok)
    requires app.deleteApp == !Protects(f)
    modifies app.world, app.tunnel, app.SSHListeners()
    ensures r == before.(ending := r.ending)
    ensures app.world.trace == old(app.world.trace) + EventsOf(r.ending) && Over(app, f, l, r, ok)
  {
    hide FullEnding, Opened, InOrder, ValidRun, Addresses, EventsOf, App.FieldsNow, App.LayoutNow, DirsIn, DirsMade;
    hide FilesStage, App.ConfigNow;
    var errors;
    ghost var ending;
    errors, ending := app.Teardown();
    Ends(app, f, l, before, ok, ending);
    r := before.(ending := ending);
  }

  /** The session, then the teardown, however far the session got. */
  method SessionAndTeardown(app: App, f: Flags)
    returns (ok: bool, ghost l: Layout, ghost r: Run, ghost v: Visit, ghost seens: seq<Seen>)
    requires Unused(app) && app.program == (if app.runArgs == [] then "" else app.runArgs[0]) && Registers(app)
    requires app.deleteApp == !Protects(f)
    modifies app.world, app, app.providers.Values
    ensures app.world.trace == old(app.world.trace) + Calls(r) && Over(app, f, l, r, ok)
    ensures FollowsPlan(app, old(app.FieldsNow()), l, r, ok, v, seens)
  {
    hide HasListeners, Opened, InOrder, ValidRun, Addresses, EventsOf, IsPlan, From, App.FieldsNow, App.LayoutNow;
    hide EndsFully, Released, HoldsDir, Configured, Registers, PassOf;
    ok, r, v, seens := Session(app, f);
    l := app.LayoutNow();
    r := TearDown(app, f, l, r, ok);
  }

  /** One run. It is over at once without a name for the existing app, or if the
      client and the other preparations (`ready`) fail. Otherwise everything is
      torn down at the end, however far it got; and if it got as far as opening
      tunnels, it had planned for the requested names from the given port. */
  method RunE(world: World, f: Flags, appName: string, ready: bool, localPort: int, names: seq<string>,
              runArgs: seq<string>, marshal: Environment -> string)
    returns (ok: bool, ghost app: App?, ghost l: Layout, ghost r: Run, ghost v: Visit, ghost seens: seq<Seen>)
    modifies world
    ensures world.trace == old(world.trace) + Calls(r) && ValidRun(f, r)
    ensures app == null <==> (f.existingApp && appName == "") || !ready
    ensures app == null ==> !ok && Calls(r) == []
    ensures app != null ==> app.names == names && app.runArgs == runArgs && app.marshal == marshal
    ensures app != null ==> Over(app, f, l, r, ok)
    ensures app != null ==>
      FollowsPlan(app, Fields(localPort, [], map[], Config(if runArgs == [] then "" else runArgs[0], REGISTERED)),
                  l, r, ok, v, seens)
  {
    hide FullEnding, Opened, InOrder, ValidRun, Calls, IsPlan, From;
    ok, app, r, v, seens := false, null, NOTHING, NO_VISIT, [];
    l := Layout(localPort, [], map[], map[], NO_VISIT.c);
    NothingIsValid(f);
    if (f.existingApp && appName == "") || !ready {
      return;
    }
    var a := NewApp(world, f, localPort, names, runArgs, marshal);
    app := a;
    ok, l, r, v, seens := SessionAndTeardown(a, f);
  }
}
