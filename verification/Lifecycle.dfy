/** What the calls of a run look like from outside, stage by stage, and what
    follows for the app the run creates or borrows. */
module Lifecycle {
  import opened ServiceCredentials
  import opened Outside
  import opened Services
  import opened Plan
  import opened Routing
  import opened ProgramView
  import opened Visiting
  import opened Tunnels

  // ---------------------------------------------------------------- binding

  /** Credentials with a host and a port, as some lookup found them. */
  ghost predicate Usable(creds: Bindings) {
    PortOf(creds) != 0 && exists host :: MayGet(creds, HOST_KEYS, host) && host != ""
  }

  ghost predicate Unusable(creds: Bindings) {
    PortOf(creds) == 0 || MayGet(creds, HOST_KEYS, "")
  }

  predicate Binds(e: Event, app: string, instance: string) {
    e.call.BindService? && e.call.guid == app && e.call.instance == instance
  }

  /** Each of these instances was bound, in this order, with usable credentials. */
  ghost predicate BoundTo(es: seq<Event>, app: string, guids: seq<string>) {
    |es| == |guids| && forall i | 0 <= i < |es| :: Binds(es[i], app, guids[i]) && es[i].ok && Usable(es[i].call.creds)
  }

  /** Different instances of this name. */
  ghost predicate Named(instances: map<string, string>, name: string, guids: seq<string>) {
    && (forall i, j | 0 <= i < j < |guids| :: guids[i] != guids[j])
    && forall g | g in guids :: g in instances && instances[g] == name
  }

  /** The guids are those of the instances of this name, each once. */
  ghost predicate Covers(instances: map<string, string>, name: string, guids: seq<string>) {
    && guids != [] && Named(instances, name, guids)
    && forall g | g in instances && instances[g] == name :: g in guids
  }

  /** Binding a name failed: no instance has it, or the last of some bindings was
      refused or came without host or port. */
  ghost predicate GivesUp(app: string, instances: map<string, string>, name: string, es: seq<Event>) {
    if es == [] then forall g | g in instances :: instances[g] != name
    else
      var n := |es| - 1;
      exists guids | |guids| == |es| && Named(instances, name, guids) ::
        && BoundTo(es[..n], app, guids[..n]) && Binds(es[n], app, guids[n])
        && (!es[n].ok || Unusable(es[n].call.creds))
  }

  function Concat(groups: seq<seq<string>>): seq<string> {
    if groups == [] then [] else Concat(groups[..|groups| - 1]) + groups[|groups| - 1]
  }

  /** The first names are each bound to all their instances. */
  ghost predicate CoversAll(instances: map<string, string>, names: seq<string>, groups: seq<seq<string>>) {
    |groups| <= |names| && forall k | 0 <= k < |groups| :: Covers(instances, names[k], groups[k])
  }

  /** The calls of a bind step once the instances are known: the names are bound
      one after another, each to all its instances, up to the first that fails. */
  ghost predicate BindSteps(app: string, instances: map<string, string>, names: seq<string>, groups: seq<seq<string>>,
                            es: seq<Event>, ok: bool) {
    var n := |Concat(groups)|;
    && CoversAll(instances, names, groups)
    && n <= |es| && BoundTo(es[..n], app, Concat(groups))
    && if ok then |groups| == |names| && |es| == n
       else |groups| < |names| && GivesUp(app, instances, names[|groups|], es[n..])
  }

  lemma {:induction false} InConcat(groups: seq<seq<string>>, g: string)
    ensures g in Concat(groups) <==> exists k | 0 <= k < |groups| :: g in groups[k]
  {
    if groups != [] {
      var init := groups[..|groups| - 1];
      InConcat(init, g);
      assert forall k | 0 <= k < |init| :: init[k] == groups[k];
    }
  }

  /** After binding every name, an instance was bound exactly if its name was
      requested, and every requested name has an instance. */
  lemma BoundExactly(instances: map<string, string>, names: seq<string>, groups: seq<seq<string>>)
    requires CoversAll(instances, names, groups) && |groups| == |names|
    ensures forall g :: g in Concat(groups) <==> g in instances && instances[g] in names
    ensures forall name | name in names :: exists g :: g in Concat(groups) && g in instances && instances[g] == name
  {
    forall g ensures g in Concat(groups) <==> g in instances && instances[g] in names {
      InConcat(groups, g);
      if g in instances && instances[g] in names {
        var k :| 0 <= k < |names| && names[k] == instances[g];
        assert Covers(instances, names[k], groups[k]) && g in groups[k];
      }
      if k :| 0 <= k < |groups| && g in groups[k] {
        assert Covers(instances, names[k], groups[k]);
      }
    }
    forall name | name in names ensures exists g :: g in Concat(groups) && g in instances && instances[g] == name {
      var k :| 0 <= k < |names| && names[k] == name;
      assert Covers(instances, names[k], groups[k]);
      var g := groups[k][0];
      assert g in groups[k];
      InConcat(groups, g);
    }
  }

  lemma BoundMore(app: string, bound: seq<Event>, more: seq<Event>, groups: seq<seq<string>>, guids: seq<string>)
    requires BoundTo(bound, app, Concat(groups)) && BoundTo(more, app, guids)
    ensures BoundTo(bound + more, app, Concat(groups + [guids]))
  {
    hide Usable;
    assert (groups + [guids])[..|groups|] == groups;
    BoundJoin(bound, more, app, Concat(groups), guids);
  }

  lemma BoundJoin(a: seq<Event>, b: seq<Event>, app: string, gs: seq<string>, hs: seq<string>)
    requires BoundTo(a, app, gs) && BoundTo(b, app, hs)
    ensures BoundTo(a + b, app, gs + hs)
  {
    hide Usable;
  }

  lemma NothingBound(app: string)
    ensures BoundTo([], app, Concat([]))
  {
  }

  lemma BindStops(app: string, instances: map<string, string>, names: seq<string>, groups: seq<seq<string>>,
                  bound: seq<Event>, more: seq<Event>, ok: bool)
    requires CoversAll(instances, names, groups) && BoundTo(bound, app, Concat(groups))
    requires if ok then |groups| == |names| && more == []
             else |groups| < |names| && GivesUp(app, instances, names[|groups|], more)
    ensures BindSteps(app, instances, names, groups, bound + more, ok)
  {
    hide Covers, GivesUp, Usable;
    assert (bound + more)[..|bound|] == bound && (bound + more)[|bound|..] == more;
  }

  const INIT_EVENTS: seq<Event> := [Did(GetOrg, true), Did(GetSpace, true)]

  function DeployEvents(guid: string): (es: seq<Event>)
    ensures |es| == 4
  {
    [Did(CreateApp(guid), true), Did(UploadBits(guid), true), Did(StartApp(guid), true), Did(PollStarted(guid), true)]
  }

  /** The calls that deploy a new app and bind it. */
  ghost predicate Deployed(guid: string, names: seq<string>, es: seq<Event>, binding: seq<Event>,
                           groups: seq<seq<string>>, ok: bool) {
    && es != [] && (es[0].ok || guid == "")
    && if binding == [] then !ok && StopsAtFailure(DeployEvents(guid), es, false)
       else es == DeployEvents(guid) + binding && binding[0].call.GetServiceInstances?
            && if binding[0].ok then BindSteps(guid, binding[0].call.instances, names, groups, binding[1..], ok)
               else !ok && |binding| == 1
  }

  // ---------------------------------------------------------- existing apps

  /** Some instance of this name is bound to the app. */
  ghost predicate HasBinding(instances: map<string, string>, bound: set<string>, name: string) {
    exists g :: g in instances && instances[g] == name && g != "" && g in bound
  }

  /** No instance has this name, or one that has it is not bound to the app. */
  ghost predicate MayLack(instances: map<string, string>, bound: set<string>, name: string) {
    || (forall g | g in instances :: instances[g] != name)
    || exists g :: g in instances && instances[g] == name && (g == "" || g !in bound)
  }

  ghost predicate UniqueNames(instances: map<string, string>) {
    forall g, h | g in instances && h in instances && instances[g] == instances[h] :: g == h
  }

  /** With one instance per name it cannot matter which one the lookup meets first. */
  lemma LacksIff(instances: map<string, string>, bound: set<string>, name: string)
    requires UniqueNames(instances)
    ensures MayLack(instances, bound, name) <==> !HasBinding(instances, bound, name)
  {
  }

  /** The calls that look up an existing app, and the verdict on its bindings. */
  ghost predicate Borrowed(names: seq<string>, es: seq<Event>, ok: bool) {
    && 1 <= |es| <= 3 && es[0].call.GetApp?
    && (|es| >= 2 ==> es[0].ok && es[1].call.GetServiceInstances?)
    && (|es| == 3 ==> es[1].ok && es[2].call.GetServiceBindings? && es[2].call.guid == es[0].call.guid)
    && if |es| == 3 && es[2].ok then
         var instances, bound := es[1].call.instances, es[2].call.bound;
         if ok then forall name | name in names :: HasBinding(instances, bound, name)
         else exists name :: name in names && MayLack(instances, bound, name)
       else !ok && !es[|es| - 1].ok
  }

  /** Looking up an existing app succeeds exactly when every call does and every
      requested name has a bound instance, names being unique in a space. */
  lemma BorrowedIff(names: seq<string>, es: seq<Event>, ok: bool)
    requires Borrowed(names, es, ok) && (|es| >= 2 ==> UniqueNames(es[1].call.instances))
    ensures ok <==> |es| == 3 && es[2].ok && forall name | name in names ::
        exists g :: g in es[1].call.instances && es[1].call.instances[g] == name && g != "" && g in es[2].call.bound
  {
    if |es| == 3 {
      forall name ensures MayLack(es[1].call.instances, es[2].call.bound, name)
                          <==> !HasBinding(es[1].call.instances, es[2].call.bound, name) {
        LacksIff(es[1].call.instances, es[2].call.bound, name);
      }
    }
  }

  // ----------------------------------------------------------------- ending

  lemma ListenAndWaitAllOk(fs: seq<ForwardAddrs>)
    ensures AllOk(ListenEvents(fs) + WaitEvents(fs))
  {
  }

  lemma NoTLSYet(fs: seq<ForwardAddrs>)
    ensures TLSEvents(fs[..0]) == [] && TLSRelays(fs[..0]) == [] && Opened([]) == Addresses([])
  {
  }

  /** Opening one address and waiting for it. */
  lemma OpenedTwo(es: seq<Event>, more: seq<Event>)
    requires 1 <= |more| <= 2 && more[0].call.Listen? && (|more| == 2 ==> more[0].ok && more[1].call.WaitFor?)
    ensures Opened(es + more) == Opened(es) + (if more[0].ok then [more[0].call.addr] else [])
  {
    OpenedMore(es, more[0]);
    if |more| == 2 {
      OpenedMore(es + [more[0]], more[1]);
      assert es + more == es + [more[0]] + [more[1]];
    } else {
      assert es + more == es + [more[0]];
    }
  }

  function Failures(es: seq<Event>): nat {
    if es == [] then 0 else Failures(es[..|es| - 1]) + (if es[|es| - 1].ok then 0 else 1)
  }

  lemma Regroup<T>(a: seq<T>, b: seq<T>, c: seq<T>)
    ensures a + b + c == a + (b + c)
  {
  }

  lemma NothingYet()
    ensures Failures([]) == 0 && EachOnce([], map[])
  {
    assert RemovesInOrder([], map[], []);
  }

  lemma FailuresNext(es: seq<Event>, e: Event)
    ensures Failures(es + [e]) == Failures(es) + (if e.ok then 0 else 1)
  {
    assert (es + [e])[..|es|] == es;
  }

  lemma {:induction false} NoFailuresIff(es: seq<Event>)
    ensures Failures(es) == 0 <==> forall i | 0 <= i < |es| :: es[i].ok
  {
    if es != [] { NoFailuresIff(es[..|es| - 1]); }
  }

  /** One destroy, or a second one after a successful refresh of the token. */
  ghost predicate DestroyTail(guid: string, es: seq<Event>, ok: bool) {
    || (es == [Did(DestroyApp(guid), true)] && ok)
    || (es == [Did(DestroyApp(guid), false), Did(RefreshToken, false)] && !ok)
    || es == [Did(DestroyApp(guid), false), Did(RefreshToken, true), Did(DestroyApp(guid), ok)]
  }

  /** The attempts of a teardown, part by part. */
  datatype Ending = Ending(tls: seq<Event>, ssh: seq<Event>, providers: seq<Event>, app: seq<Event>, appOk: bool)

  function EventsOf(e: Ending): seq<Event> {
    e.tls + e.ssh + e.providers + e.app
  }

  lemma EventsJoined(past: seq<Event>, e: Ending)
    ensures past + e.tls + e.ssh + e.providers + e.app == past + EventsOf(e)
  {
  }

  /** How many of the attempts failed; the app counts as one. */
  function ErrorsOf(e: Ending): nat {
    Failures(e.tls) + Failures(e.ssh) + Failures(e.providers) + (if e.appOk then 0 else 1)
  }

  /** The directories made for providers of MySQL, by the name of the provider. */
  function DirsIn(c: Config): map<string, string> {
    map t | t in c.providers && c.providers[t].kind == MySQL && c.providers[t].workDir != "" :: c.providers[t].workDir
  }

  /** The names of the map, each once. */
  ghost predicate Lists(order: seq<string>, dirs: map<string, string>) {
    && (forall i, j | 0 <= i < j < |order| :: order[i] != order[j])
    && forall n :: n in order <==> n in dirs
  }

  /** Each of these directories is removed once, in any order. */
  ghost predicate EachOnce(es: seq<Event>, dirs: map<string, string>) {
    exists order :: RemovesInOrder(es, dirs, order)
  }

  ghost predicate RemovesInOrder(es: seq<Event>, dirs: map<string, string>, order: seq<string>) {
    && Lists(order, dirs) && |es| == |order|
    && forall i | 0 <= i < |es| :: order[i] in dirs && es[i].call == RemoveAll(dirs[order[i]])
  }

  lemma EachOnceMore(es: seq<Event>, dirs: map<string, string>, name: string, dir: string, ok: bool)
    requires EachOnce(es, dirs) && name !in dirs
    ensures EachOnce(es + [Did(RemoveAll(dir), ok)], dirs[name := dir])
  {
    hide RemovesInOrder;
    var order :| RemovesInOrder(es, dirs, order);
    RemovesMore(es, dirs, order, name, dir, ok);
  }

  lemma RemovesMore(es: seq<Event>, dirs: map<string, string>, order: seq<string>, name: string, dir: string, ok: bool)
    requires RemovesInOrder(es, dirs, order) && name !in dirs
    ensures RemovesInOrder(es + [Did(RemoveAll(dir), ok)], dirs[name := dir], order + [name])
  {
    ListsMore(order, dirs, name, dir);
    hide Lists;
    var more, all, names := es + [Did(RemoveAll(dir), ok)], dirs[name := dir], order + [name];
    forall i | 0 <= i < |more| ensures names[i] in all && more[i].call == RemoveAll(all[names[i]]) {
      if i < |es| { assert more[i] == es[i] && names[i] == order[i]; }
    }
  }

  lemma ListsMore(order: seq<string>, dirs: map<string, string>, name: string, dir: string)
    requires Lists(order, dirs) && name !in dirs
    ensures Lists(order + [name], dirs[name := dir])
  {
    assert forall i | 0 <= i < |order| :: order[i] in order;
  }

  /** A teardown reports nothing exactly when every attempt but a repeated destroy worked. */
  lemma TeardownIsCleanIff(e: Ending, tlsAddrs: seq<string>, tunnel: bool, dirs: map<string, string>, destroys: bool,
                           guid: string)
    requires FullEnding(e, tlsAddrs, tunnel, dirs, destroys, guid)
    ensures ErrorsOf(e) == 0 <==>
      AllOk(e.tls) && AllOk(e.providers) && (destroys ==> e.app[|e.app| - 1] == Did(DestroyApp(guid), true))
  {
    NoFailuresIff(e.tls);
    NoFailuresIff(e.ssh);
    NoFailuresIff(e.providers);
  }

  /** Every started TLS tunnel, then the SSH tunnel, then the directory of every
      provider that has one, then the app, whatever failed on the way. */
  ghost predicate FullEnding(e: Ending, tlsAddrs: seq<string>, tunnel: bool, dirs: map<string, string>,
                             destroys: bool, guid: string) {
    && |e.tls| == |tlsAddrs| && (forall i | 0 <= i < |e.tls| :: e.tls[i].call == CloseTLS(tlsAddrs[i]))
    && e.ssh == (if tunnel then [Did(StopSSH, true)] else [])
    && EachOnce(e.providers, dirs)
    && if destroys then DestroyTail(guid, e.app, e.appOk) else e.app == [] && e.appOk
  }

  // -------------------------------------------------------------- ownership

  /** Calls that create or destroy an app, or refresh the token for that. */
  predicate TouchesApps(c: Call) {
    c.CreateApp? || c.DestroyApp? || c.RefreshToken?
  }

  /** Calls that make, fill or remove a directory. */
  predicate TouchesFiles(c: Call) {
    c.MakeDir? || c.WriteFile? || c.RemoveAll?
  }

  /** None of these calls touches apps or files. */
  predicate Untouched(es: seq<Event>) {
    forall i | 0 <= i < |es| :: !TouchesApps(es[i].call) && !TouchesFiles(es[i].call)
  }

  /** The directory that planning made, "" if none. */
  function DirOf(files: seq<Event>): string {
    if files != [] && files[0].call.MakeDir? then files[0].call.dir else ""
  }

  /** Planning made no directory, or one and tried to write my.cnf into it. */
  ghost predicate FilesStage(files: seq<Event>) {
    var dir := DirOf(files);
    if dir == "" then files == [] || files == [Did(MakeDir(""), false)]
    else exists text, ok :: files == [Did(MakeDir(dir), true), Did(WriteFile(dir, "my.cnf", text), ok)]
  }

  /** The directory is removed, if there is one. */
  predicate Cleans(es: seq<Event>, dir: string) {
    if dir == "" then es == [] else |es| == 1 && es[0].call == RemoveAll(dir)
  }

  function DirsMade(files: seq<Event>): map<string, string> {
    if DirOf(files) == "" then map[] else map["mysql" := DirOf(files)]
  }

  lemma {:induction false} DistinctCount(s: seq<string>)
    requires forall i, j | 0 <= i < j < |s| :: s[i] != s[j]
    ensures |set n | n in s| == |s|
  {
    if s != [] {
      var init, last := s[..|s| - 1], s[|s| - 1];
      DistinctCount(init);
      assert (set n | n in s) == (set n | n in init) + {last};
    }
  }

  lemma CleansOne(es: seq<Event>, files: seq<Event>)
    requires EachOnce(es, DirsMade(files))
    ensures Cleans(es, DirOf(files))
  {
    var dirs := DirsMade(files);
    var order :| RemovesInOrder(es, dirs, order);
    assert (set n | n in order) == dirs.Keys;
    DistinctCount(order);
  }

  /** MySQL's provider holds the directory that planning made, if any. */
  lemma PlanningDir(v: Visit, p: Pass, config: Config, files: seq<Event>)
    requires v.c.providers == REGISTERED && "mysql" in config.providers && Configured(v, p, config, files)
    ensures FilesStage(files) && config.providers["mysql"].workDir == DirOf(files)
  {
    hide MayBeMyCnf;
    assert forall t | t in REGISTERED && REGISTERED[t].kind == MySQL :: t == "mysql";
    if p.client.Some? && v.slots[p.client.value].serviceType == "mysql" {
      var dir := config.providers["mysql"].workDir;
      var ok :| WritesMyCnf(p.after[p.client.value], files, dir, ok);
      assert DirOf(files) == dir;
    } else {
      assert files == [] && SameDirs(config, v.c);
    }
  }

  /** Of the four providers only that of MySQL can have a directory, and it is the one
      that planning made. */
  lemma PlanningFiles(v: Visit, p: Pass, config: Config, files: seq<Event>)
    requires v.c.providers == REGISTERED && SameKinds(config, v.c) && Configured(v, p, config, files)
    ensures FilesStage(files) && DirsIn(config) == DirsMade(files)
  {
    hide Configured, FilesStage;
    assert config.providers.Keys == REGISTERED.Keys;
    PlanningDir(v, p, config, files);
    assert forall t :: t in config.providers && config.providers[t].kind == MySQL <==> t == "mysql";
  }

  lemma UntouchedMore(a: seq<Event>, b: seq<Event>)
    ensures Untouched(a + b) <==> Untouched(a) && Untouched(b)
  {
    assert forall i | 0 <= i < |a| :: (a + b)[i] == a[i];
    assert forall i | 0 <= i < |b| :: (a + b)[|a| + i] == b[i];
  }

  lemma StoppedUntouched(plan: seq<Event>, done: seq<Event>, ok: bool)
    requires StopsAtFailure(plan, done, ok) && Untouched(plan)
    ensures Untouched(done)
  {
  }

  lemma EventsUntouched(fs: seq<ForwardAddrs>)
    ensures Untouched(ListenEvents(fs)) && Untouched(WaitEvents(fs)) && Untouched(TLSEvents(fs))
  {
    TLSEventsUntouched(fs);
  }

  lemma {:induction false} TLSEventsUntouched(fs: seq<ForwardAddrs>)
    ensures Untouched(TLSEvents(fs))
  {
    if fs != [] { TLSEventsUntouched(fs[..|fs| - 1]); }
  }

  /** main.go:76-78: the three flags that protect the app from deletion. */
  datatype Flags = Flags(noDelete: bool, reuse: bool, existingApp: bool)

  predicate Protects(f: Flags) {
    f.noDelete || f.reuse || f.existingApp
  }

  /** The calls of a run, stage by stage. */
  datatype Run = Run(init: seq<Event>, prepare: seq<Event>, fetch: seq<Event>, files: seq<Event>, setup: seq<Event>,
                     secure: seq<Event>, command: seq<Event>, ending: Ending)

  /** The calls up to the end of the program. */
  function Stages(r: Run): seq<Event> {
    r.init + r.prepare + r.fetch + r.files + r.setup + r.secure + r.command
  }

  function Calls(r: Run): seq<Event> {
    Stages(r) + EventsOf(r.ending)
  }

  /** The calls before the app is destroyed. */
  function Head(r: Run): seq<Event> {
    Stages(r) + (r.ending.tls + r.ending.ssh + r.ending.providers)
  }

  /** The guid of the app that these calls create or look up. */
  function AppIn(prepare: seq<Event>): string {
    if prepare == [] then "" else match prepare[0].call
      case CreateApp(guid) => guid
      case GetApp(guid) => if prepare[0].ok then guid else ""
      case _ => ""
  }

  /** The guid of the app the run works with. */
  function AppOf(r: Run): string {
    AppIn(r.prepare)
  }

  /** The app is created or looked up first thing and not touched after. */
  predicate Prepared(f: Flags, es: seq<Event>) {
    && es != [] && Untouched(es[1..])
    && if f.existingApp then es[0].call.GetApp? else es[0].call.CreateApp? && (es[0].ok || es[0].call.guid == "")
  }

  /** Up to the end of the program the app is touched in the second stage only. */
  predicate ValidStages(f: Flags, r: Run) {
    && Untouched(r.init) && (r.prepare != [] ==> Prepared(f, r.prepare))
    && Untouched(r.fetch) && Untouched(r.setup) && Untouched(r.secure) && Untouched(r.command)
  }

  /** What every run is like: the app is touched again only at the end, which
      destroys it exactly when no flag protects it and there is one; and a directory
      made while planning is removed. */
  ghost predicate ValidRun(f: Flags, r: Run) {
    && ValidStages(f, r) && Untouched(r.ending.tls + r.ending.ssh)
    && FilesStage(r.files) && Cleans(r.ending.providers, DirOf(r.files))
    && if !Protects(f) && AppOf(r) != "" then DestroyTail(AppOf(r), r.ending.app, r.ending.appOk)
       else r.ending.app == []
  }

  /** The stage that creates or looks up the app, and whether it succeeded. */
  ghost predicate PrepareStage(f: Flags, names: seq<string>, es: seq<Event>, ok: bool) {
    if f.existingApp then Borrowed(names, es, ok)
    else exists binding, groups :: Deployed(AppIn(es), names, es, binding, groups, ok)
  }

  /** The stage that fetches the bindings of the app, and plans. */
  ghost predicate PlanStage(guid: string, fetch: seq<Event>, files: seq<Event>) {
    && |fetch| == 1 && fetch[0].call.GetAppEnv? && fetch[0].call.guid == guid
    && FilesStage(files) && (!fetch[0].ok ==> files == [])
  }

  /** The stage that, unless planning failed, opens and secures the tunnels for
      these forwards. */
  ghost predicate SetUpStage(fs: seq<ForwardAddrs>, fetched: bool, setup: seq<Event>, secure: seq<Event>, ok: bool) {
    || (setup == [] && secure == [] && !ok)
    || (fetched && StopsAtFailure(ListenEvents(fs) + WaitEvents(fs), setup, AllOk(setup))
        && if AllOk(setup) then StopsAtFailure(TLSEvents(fs), secure, ok) else !ok && secure == [])
  }

  /** The stage that runs the program in the planned environment, with what its
      provider adds in front of its own arguments. */
  ghost predicate CommandStage(runArgs: seq<string>, l: Layout, es: seq<Event>, ok: bool) {
    && runArgs != [] && |es| == 1 && es[0].ok == ok
    && exists extra :: MayGetArgs(l.config, l.services, extra)
                       && es[0].call == RunProgram(runArgs[0], extra + runArgs[1..], l.env)
  }

  /** All tunnels were opened: the program was run, or there is none to run. */
  predicate Connected(runArgs: seq<string>, r: Run, ok: bool) {
    r.command != [] || (runArgs == [] && ok)
  }

  /** The stages come in order, each only when the one before succeeded; the
      program is run last, if there is one. `l` is the layout the run planned and
      `ok` the result of its last stage. */
  ghost predicate InOrder(f: Flags, names: seq<string>, runArgs: seq<string>, l: Layout, r: Run, ok: bool) {
    && StopsAtFailure(INIT_EVENTS, r.init, r.prepare != [])
    && (r.prepare != [] ==> PrepareStage(f, names, r.prepare, r.fetch != []))
    && (if r.fetch == [] then r.files == [] && r.setup == [] && r.secure == [] && !Connected(runArgs, r, ok)
        else r.prepare != [] && PlanStage(AppOf(r), r.fetch, r.files)
             && SetUpStage(l.forwards, r.fetch[0].ok, r.setup, r.secure, Connected(runArgs, r, ok)))
    && if r.command == [] then ok == Connected(runArgs, r, ok) else CommandStage(runArgs, l, r.command, ok)
  }

  lemma GivenUpUntouched(app: string, instances: map<string, string>, name: string, es: seq<Event>)
    requires GivesUp(app, instances, name, es)
    ensures Untouched(es)
  {
    hide Usable, Unusable;
    if es != [] {
      var n := |es| - 1;
      var guids: seq<string> :| |guids| == |es| && Named(instances, name, guids)
                                && BoundTo(es[..n], app, guids[..n]) && Binds(es[n], app, guids[n]);
      assert forall i | 0 <= i < n :: es[i] == es[..n][i];
    }
  }

  lemma BindStepsUntouched(app: string, instances: map<string, string>, names: seq<string>, groups: seq<seq<string>>,
                           es: seq<Event>, ok: bool)
    requires BindSteps(app, instances, names, groups, es, ok)
    ensures Untouched(es)
  {
    var n := |Concat(groups)|;
    if !ok { GivenUpUntouched(app, instances, names[|groups|], es[n..]); }
    assert es == es[..n] + es[n..];
    UntouchedMore(es[..n], es[n..]);
  }

  lemma DeployedUntouched(guid: string, names: seq<string>, es: seq<Event>, binding: seq<Event>,
                           groups: seq<seq<string>>, ok: bool)
    requires Deployed(guid, names, es, binding, groups, ok)
    ensures es[0].call == CreateApp(guid) && Untouched(es[1..])
  {
    hide BindSteps;
    var plan := DeployEvents(guid);
    if binding == [] {
      var k :| 0 <= k < 4 && es == plan[..k] + [plan[k].(ok := false)];
      assert forall i | 0 <= i < |es| :: es[i].call == plan[i].call;
      assert forall i | 0 <= i < |es[1..]| :: es[1..][i].call == plan[i + 1].call;
    } else {
      if binding[0].ok { BindStepsUntouched(guid, binding[0].call.instances, names, groups, binding[1..], ok); }
      assert binding == [binding[0]] + binding[1..];
      UntouchedMore([binding[0]], binding[1..]);
      assert es[1..] == plan[1..] + binding;
      UntouchedMore(plan[1..], binding);
    }
  }

  lemma PrepareTouchesOnce(f: Flags, names: seq<string>, es: seq<Event>, ok: bool)
    requires PrepareStage(f, names, es, ok)
    ensures Prepared(f, es)
  {
    hide Borrowed, Deployed;
    if f.existingApp {
      BorrowedUntouched(names, es, ok);
    } else {
      var binding, groups :| Deployed(AppIn(es), names, es, binding, groups, ok);
      DeployedUntouched(AppIn(es), names, es, binding, groups, ok);
      FirstCreates(AppIn(es), names, es, binding, groups, ok);
    }
  }

  lemma FirstCreates(guid: string, names: seq<string>, es: seq<Event>, binding: seq<Event>, groups: seq<seq<string>>,
                     ok: bool)
    requires Deployed(guid, names, es, binding, groups, ok)
    ensures es != [] && (es[0].ok || guid == "")
  {
  }

  lemma BorrowedUntouched(names: seq<string>, es: seq<Event>, ok: bool)
    requires Borrowed(names, es, ok)
    ensures es != [] && es[0].call.GetApp? && Untouched(es[1..])
  {
  }

  lemma SetUpUntouched(fs: seq<ForwardAddrs>, fetched: bool, setup: seq<Event>, secure: seq<Event>, ok: bool)
    requires SetUpStage(fs, fetched, setup, secure, ok)
    ensures Untouched(setup) && Untouched(secure)
  {
    hide StopsAtFailure, ListenEvents, WaitEvents, TLSEvents;
    if secure != [] || setup != [] {
      EventsUntouched(fs);
      UntouchedMore(ListenEvents(fs), WaitEvents(fs));
      StoppedUntouched(ListenEvents(fs) + WaitEvents(fs), setup, AllOk(setup));
      if AllOk(setup) { StoppedUntouched(TLSEvents(fs), secure, ok); }
    }
  }

  /** Stages in order touch apps where they should. */
  lemma StagesAreValid(f: Flags, names: seq<string>, runArgs: seq<string>, l: Layout, r: Run, ok: bool)
    requires InOrder(f, names, runArgs, l, r, ok)
    ensures ValidStages(f, r)
  {
    hide PrepareStage, SetUpStage, Prepared, StopsAtFailure, MayGetArgs;
    StoppedUntouched(INIT_EVENTS, r.init, r.prepare != []);
    if r.prepare != [] { PrepareTouchesOnce(f, names, r.prepare, r.fetch != []); }
    if r.fetch != [] { SetUpUntouched(l.forwards, r.fetch[0].ok, r.setup, r.secure, Connected(runArgs, r, ok)); }
  }

  lemma EndingUntouched(e: Ending, tlsAddrs: seq<string>, tunnel: bool, dirs: map<string, string>, destroys: bool,
                        guid: string)
    requires FullEnding(e, tlsAddrs, tunnel, dirs, destroys, guid)
    ensures Untouched(e.tls + e.ssh)
  {
    UntouchedMore(e.tls, e.ssh);
  }

  function CountDestroys(es: seq<Event>): nat {
    if es == [] then 0 else CountDestroys(es[..|es| - 1]) + (if es[|es| - 1].call.DestroyApp? then 1 else 0)
  }

  lemma {:induction false} CountDestroysAppend(a: seq<Event>, b: seq<Event>)
    ensures CountDestroys(a + b) == CountDestroys(a) + CountDestroys(b)
  {
    if b == [] {
      assert a + b == a;
    } else {
      CountDestroysAppend(a, b[..|b| - 1]);
      assert (a + b)[..|a + b| - 1] == a + b[..|b| - 1];
    }
  }

  lemma {:induction false} NoDestroys(es: seq<Event>)
    requires LeavesApps(es)
    ensures CountDestroys(es) == 0
  {
    if es != [] { NoDestroys(es[..|es| - 1]); }
  }

  predicate LeavesApps(es: seq<Event>) {
    forall i | 0 <= i < |es| :: !TouchesApps(es[i].call)
  }

  lemma LeavesAppsMore(a: seq<Event>, b: seq<Event>)
    requires LeavesApps(a) && LeavesApps(b)
    ensures LeavesApps(a + b)
  {
  }

  lemma RestLeavesApps(r: Run, rest: seq<Event>)
    requires Untouched(r.fetch) && FilesStage(r.files) && Untouched(r.setup) && Untouched(r.secure)
    requires Untouched(r.command) && Untouched(r.ending.tls + r.ending.ssh)
    requires Cleans(r.ending.providers, DirOf(r.files))
    requires rest == r.fetch + r.files + r.setup + r.secure + r.command
                     + (r.ending.tls + r.ending.ssh + r.ending.providers)
    ensures LeavesApps(rest)
  {
    assert LeavesApps(r.files) && LeavesApps(r.ending.providers);
    LeavesAppsMore(r.fetch, r.files);
    LeavesAppsMore(r.fetch + r.files, r.setup);
    LeavesAppsMore(r.fetch + r.files + r.setup, r.secure);
    LeavesAppsMore(r.fetch + r.files + r.setup + r.secure, r.command);
    LeavesAppsMore(r.ending.tls + r.ending.ssh, r.ending.providers);
    LeavesAppsMore(r.fetch + r.files + r.setup + r.secure + r.command,
                   r.ending.tls + r.ending.ssh + r.ending.providers);
  }

  /** All but the last calls of a valid run touch apps only by the first call of
      the second stage. */
  lemma OnlyOneTouch(f: Flags, r: Run)
    requires ValidRun(f, r)
    ensures Calls(r) == Head(r) + r.ending.app && |r.init| <= |Head(r)|
    ensures forall i | 0 <= i < |Head(r)| && TouchesApps(Head(r)[i].call) ::
      i == |r.init| && r.prepare != [] && Head(r)[i] == r.prepare[0] && r.prepare[0].call.CreateApp?
    ensures r.prepare != [] ==> |r.init| < |Head(r)| && Head(r)[|r.init|] == r.prepare[0]
  {
    hide FilesStage, Cleans;
    var rest := r.fetch + r.files + r.setup + r.secure + r.command
                + (r.ending.tls + r.ending.ssh + r.ending.providers);
    RestLeavesApps(r, rest);
    var head, n, m := Head(r), |r.init|, |r.init| + |r.prepare|;
    assert head == r.init + r.prepare + rest;
    assert forall i | 0 <= i < n :: head[i] == r.init[i];
    assert forall i | n < i < m :: head[i] == r.prepare[1..][i - n - 1];
    assert forall i | m <= i < |head| :: head[i] == rest[i - m];
  }

  /** Only an app that this run created is ever destroyed, and a protected app never. */
  lemma DestroysOnlyItsOwn(f: Flags, r: Run, i: nat)
    requires ValidRun(f, r) && i < |Calls(r)| && Calls(r)[i].call.DestroyApp?
    ensures !f.noDelete && !f.reuse && !f.existingApp
    ensures exists j | 0 <= j < i :: Calls(r)[j] == Did(CreateApp(Calls(r)[i].call.guid), true)
  {
    OnlyOneTouch(f, r);
    var head := Head(r);
    assert i >= |head|;
    assert Calls(r)[i] == r.ending.app[i - |head|];
    assert Calls(r)[|r.init|] == r.prepare[0];
  }

  lemma CreatedIsOwn(f: Flags, r: Run)
    requires ValidRun(f, r) && !f.existingApp
    ensures AppOf(r) != "" <==> exists guid :: guid != "" && Creates(r, guid)
  {
    hide FilesStage, Cleans;
    OnlyOneTouch(f, r);
    var head := Head(r);
    if AppOf(r) != "" {
      assert Calls(r)[|r.init|] == r.prepare[0] == Did(CreateApp(AppOf(r)), true);
      assert Creates(r, AppOf(r));
    }
    if guid :| guid != "" && Creates(r, guid) {
      var i :| 0 <= i < |Calls(r)| && Calls(r)[i] == Did(CreateApp(guid), true);
      if i < |head| {
        assert head[i] == r.prepare[0];
      } else {
        assert Calls(r)[i] == r.ending.app[i - |head|];
      }
    }
  }

  lemma {:induction false} CountNone(es: seq<Event>)
    requires forall i | 0 <= i < |es| :: !es[i].call.DestroyApp?
    ensures CountDestroys(es) == 0
  {
    if es != [] { CountNone(es[..|es| - 1]); }
  }

  lemma CountTail(g: string, es: seq<Event>, ok: bool)
    requires DestroyTail(g, es, ok)
    ensures 1 <= CountDestroys(es) <= 2
  {
    var first, rest := es[..1], es[1..];
    assert es == first + rest && first[..0] == [];
    CountDestroysAppend(first, rest);
    if |rest| == 2 {
      CountDestroysAppend(rest[..1], rest[1..]);
      assert rest == rest[..1] + rest[1..] && rest[..1][..0] == rest[1..][..0] == [];
    } else if |rest| == 1 {
      assert rest[..0] == [];
    }
  }

  /** An unprotected app that was created is destroyed at the end of the run, with
      one call or two, the second only after a successful refresh of the token. */
  lemma DestroysWhatItCreated(f: Flags, r: Run)
    requires ValidRun(f, r) && !f.noDelete && !f.reuse && !f.existingApp
    requires r.prepare != [] && r.prepare[0].ok && AppOf(r) != ""
    ensures var g, es, app := AppOf(r), Calls(r), r.ending.app;
      && 1 <= CountDestroys(es) <= 2
      && 0 < |app| <= |es| && es[|es| - |app|..] == app && DestroyTail(g, app, r.ending.appOk)
      && (r.ending.appOk ==> es[|es| - 1] == Did(DestroyApp(g), true))
  {
    OnlyOneTouch(f, r);
    var head := Head(r);
    var es, app := Calls(r), r.ending.app;
    assert es[|es| - |app|..] == app;
    CountDestroysAppend(head, app);
    assert forall i | 0 <= i < |head| :: !head[i].call.DestroyApp?;
    CountNone(head);
    CountTail(AppOf(r), app, r.ending.appOk);
  }

  /** The run created this app. */
  predicate Creates(r: Run, guid: string) {
    Did(CreateApp(guid), true) in Calls(r)
  }

  /** Something is destroyed exactly when none of the three flags is given and the
      run created an app whose guid is not empty. */
  lemma DestroysIff(f: Flags, r: Run)
    requires ValidRun(f, r)
    ensures CountDestroys(Calls(r)) > 0 <==>
      !f.noDelete && !f.reuse && !f.existingApp && exists guid :: guid != "" && Creates(r, guid)
  {
    if !f.existingApp { CreatedIsOwn(f, r); }
    OnlyOneTouch(f, r);
    CountDestroysAppend(Head(r), r.ending.app);
    CountNone(Head(r));
    if r.ending.app != [] { CountTail(AppOf(r), r.ending.app, r.ending.appOk); }
  }
}
