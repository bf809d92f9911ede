/** In which order a run makes its calls: what each of them needs to have worked
    before, where a failure ends the run, and how it is torn down. */
module CallOrder {
  import opened ServiceCredentials
  import opened Outside
  import opened Plan
  import opened Routing
  import opened Visiting
  import opened Tunnels
  import opened Lifecycle

  // ------------------------------------------------ what has to come before

  /** The call `b` is made only after a call like `a` has worked. */
  ghost predicate Needs(b: Call, a: Call) {
    match b
    case GetSpace => a.GetOrg?
    case CreateApp(_) => a.GetSpace?
    case GetApp(_) => a.GetSpace?
    case UploadBits(g) => a == CreateApp(g)
    case StartApp(g) => a == UploadBits(g)
    case PollStarted(g) => a == StartApp(g)
    case GetServiceInstances(_) => a.PollStarted? || a.GetApp?
    case GetServiceBindings(g, _) => a == GetApp(g)
    case BindService(_, instance, _) => a.GetServiceInstances? && instance in a.instances
    case GetAppEnv(g, _) => a == PollStarted(g) || (a.GetServiceBindings? && a.guid == g)
    case MakeDir(_) => a.GetAppEnv?
    case WriteFile(dir, _, _) => a == MakeDir(dir)
    case Listen(_) => a.GetAppEnv?
    case WaitFor(addr) => a == Listen(addr)
    case RunProgram(_, _, _) => a.GetAppEnv?
    case _ => false
  }

  /** After these calls this one may be made. */
  ghost predicate Ready(past: seq<Event>, c: Call) {
    c.GetOrg? || exists j | 0 <= j < |past| :: past[j].ok && Needs(c, past[j].call)
  }

  ghost predicate Justified(past: seq<Event>, es: seq<Event>) {
    forall i | 0 <= i < |es| :: Ready(past + es[..i], es[i].call)
  }

  lemma ReadyMore(past: seq<Event>, more: seq<Event>, c: Call)
    requires Ready(past, c)
    ensures Ready(past + more, c)
  {
    if j :| 0 <= j < |past| && past[j].ok && Needs(c, past[j].call) { assert (past + more)[j] == past[j]; }
  }

  lemma ReadyAfter(past: seq<Event>, j: nat, c: Call)
    requires j < |past| && past[j].ok && Needs(c, past[j].call)
    ensures Ready(past, c)
  {
  }

  lemma JustifiedMore(past: seq<Event>, a: seq<Event>, b: seq<Event>)
    requires Justified(past, a) && Justified(past + a, b)
    ensures Justified(past, a + b)
  {
    hide Ready;
    forall i | 0 <= i < |a + b| ensures Ready(past + (a + b)[..i], (a + b)[i].call) {
      if i < |a| {
        assert (a + b)[..i] == a[..i];
      } else {
        assert past + (a + b)[..i] == past + a + b[..i - |a|];
      }
    }
  }

  /** Cut short at a failure the calls are still justified. */
  lemma StopsJustified(past: seq<Event>, plan: seq<Event>, done: seq<Event>, ok: bool)
    requires Justified(past, plan) && StopsAtFailure(plan, done, ok)
    ensures Justified(past, done)
  {
    hide Ready;
    if !ok {
      var k :| 0 <= k < |plan| && done == plan[..k] + [plan[k].(ok := false)];
      forall i | 0 <= i < |done| ensures Ready(past + done[..i], done[i].call) {
        assert done[..i] == plan[..i] && done[i].call == plan[i].call;
      }
    }
  }

  /** All of these calls are ready from the start. */
  lemma AllReady(past: seq<Event>, es: seq<Event>)
    requires forall i | 0 <= i < |es| :: Ready(past, es[i].call)
    ensures Justified(past, es)
  {
    hide Ready;
    forall i | 0 <= i < |es| ensures Ready(past + es[..i], es[i].call) { ReadyMore(past, es[..i], es[i].call); }
  }

  /** Every call but the last worked. */
  predicate FailsLast(es: seq<Event>) {
    forall i | 0 <= i < |es| - 1 :: es[i].ok
  }

  lemma StopsFailsLast(plan: seq<Event>, done: seq<Event>, ok: bool)
    requires StopsAtFailure(plan, done, ok) && AllOk(plan)
    ensures FailsLast(done) && (ok <==> AllOk(done))
  {
    StopsUnlessAllOk(plan, done, ok);
  }

  lemma InitJustified(es: seq<Event>, ok: bool)
    requires StopsAtFailure(INIT_EVENTS, es, ok)
    ensures Justified([], es) && FailsLast(es) && (ok ==> |es| == 2 && es[1] == Did(GetSpace, true))
  {
    StopsFailsLast(INIT_EVENTS, es, ok);
    assert Ready([] + INIT_EVENTS[..0], INIT_EVENTS[0].call);
    ReadyAfter([] + INIT_EVENTS[..1], 0, INIT_EVENTS[1].call);
    StopsJustified([], INIT_EVENTS, es, ok);
  }

  lemma DeployJustified(past: seq<Event>, guid: string, es: seq<Event>, ok: bool)
    requires |past| == 2 && past[1] == Did(GetSpace, true) && StopsAtFailure(DeployEvents(guid), es, ok)
    ensures Justified(past, es) && FailsLast(es) && (ok <==> AllOk(es))
  {
    var plan := DeployEvents(guid);
    StopsFailsLast(plan, es, ok);
    ReadyAfter(past + plan[..0], 1, plan[0].call);
    ReadyAfter(past + plan[..1], 2, plan[1].call);
    ReadyAfter(past + plan[..2], 3, plan[2].call);
    ReadyAfter(past + plan[..3], 4, plan[3].call);
    assert Justified(past, plan);
    StopsJustified(past, plan, es, ok);
  }

  /** All these calls bind the app to instances that were listed; all but the last
      worked, and the last too on success. */
  lemma BindsListed(app: string, instances: map<string, string>, names: seq<string>, groups: seq<seq<string>>,
                    es: seq<Event>, ok: bool)
    requires BindSteps(app, instances, names, groups, es, ok)
    ensures forall i | 0 <= i < |es| :: es[i].call.BindService? && es[i].call.instance in instances
    ensures FailsLast(es) && (ok ==> AllOk(es))
  {
    hide Usable, Unusable, Concat;
    var n := |Concat(groups)|;
    forall g | g in Concat(groups) ensures g in instances {
      InConcat(groups, g);
      var k :| 0 <= k < |groups| && g in groups[k];
      assert Covers(instances, names[k], groups[k]);
    }
    var front, rest := es[..n], es[n..];
    assert forall i | 0 <= i < n :: es[i] == front[i] && Concat(groups)[i] in Concat(groups);
    if !ok { GivenUpListed(app, instances, names[|groups|], rest); }
    assert forall i | n <= i < |es| :: es[i] == rest[i - n];
  }

  lemma GivenUpListed(app: string, instances: map<string, string>, name: string, es: seq<Event>)
    requires GivesUp(app, instances, name, es)
    ensures forall i | 0 <= i < |es| :: es[i].call.BindService? && es[i].call.instance in instances
    ensures FailsLast(es)
  {
    hide Usable, Unusable;
    if es != [] {
      var n := |es| - 1;
      var guids: seq<string> :| |guids| == |es| && Named(instances, name, guids)
                                && BoundTo(es[..n], app, guids[..n]) && Binds(es[n], app, guids[n]);
      assert forall i | 0 <= i < |es| :: guids[i] in guids;
      assert forall i | 0 <= i < n :: es[i] == es[..n][i] && guids[..n][i] == guids[i];
    }
  }

  lemma BindingJustified(past: seq<Event>, app: string, names: seq<string>, binding: seq<Event>,
                         groups: seq<seq<string>>, ok: bool)
    requires past != [] && past[|past| - 1].ok && past[|past| - 1].call.PollStarted?
    requires binding != [] && binding[0].call.GetServiceInstances?
    requires if binding[0].ok then BindSteps(app, binding[0].call.instances, names, groups, binding[1..], ok)
             else !ok && |binding| == 1
    ensures Justified(past, binding) && FailsLast(binding) && (ok ==> AllOk(binding))
  {
    hide BindSteps, Ready;
    ReadyAfter(past, |past| - 1, binding[0].call);
    AllReady(past, [binding[0]]);
    if binding[0].ok {
      BindsListed(app, binding[0].call.instances, names, groups, binding[1..], ok);
      forall i | 0 <= i < |binding[1..]| ensures Ready(past + [binding[0]], binding[1..][i].call) {
        ReadyAfter(past + [binding[0]], |past|, binding[1..][i].call);
      }
      AllReady(past + [binding[0]], binding[1..]);
      JustifiedMore(past, [binding[0]], binding[1..]);
      assert binding == [binding[0]] + binding[1..];
      assert forall i | 1 <= i < |binding| :: binding[i] == binding[1..][i - 1];
    } else {
      assert binding == [binding[0]];
    }
  }

  /** The app to work with has been made ready by this call. */
  ghost predicate AppReady(es: seq<Event>, guid: string) {
    exists j | 0 <= j < |es| ::
      es[j].ok && (es[j].call == PollStarted(guid) || (es[j].call.GetServiceBindings? && es[j].call.guid == guid))
  }

  lemma DeployedJustified(past: seq<Event>, guid: string, names: seq<string>, es: seq<Event>, binding: seq<Event>,
                          groups: seq<seq<string>>, ok: bool)
    requires |past| == 2 && past[1] == Did(GetSpace, true) && Deployed(guid, names, es, binding, groups, ok)
    ensures Justified(past, es) && FailsLast(es) && (ok ==> AllOk(es) && AppReady(es, guid))
  {
    hide Ready, BindSteps, Justified;
    var plan := DeployEvents(guid);
    if binding == [] {
      DeployJustified(past, guid, es, false);
    } else {
      DeployJustified(past, guid, plan, true);
      assert (past + plan)[5] == plan[3];
      BindingJustified(past + plan, guid, names, binding, groups, ok);
      JustifiedMore(past, plan, binding);
      assert forall i | 0 <= i < 4 :: es[i] == plan[i];
      assert forall i | 4 <= i < |es| :: es[i] == binding[i - 4];
      assert es[3].call == PollStarted(guid);
    }
  }

  lemma BorrowedJustified(past: seq<Event>, names: seq<string>, es: seq<Event>, ok: bool)
    requires |past| == 2 && past[1] == Did(GetSpace, true) && Borrowed(names, es, ok)
    ensures Justified(past, es) && FailsLast(es) && (ok ==> AllOk(es) && AppReady(es, AppIn(es)))
  {
    hide HasBinding, MayLack;
    ReadyAfter(past + es[..0], 1, es[0].call);
    if |es| >= 2 { ReadyAfter(past + es[..1], 2, es[1].call); }
    if |es| == 3 { ReadyAfter(past + es[..2], 2, es[2].call); }
  }

  lemma PrepareJustified(past: seq<Event>, f: Flags, names: seq<string>, es: seq<Event>, ok: bool)
    requires |past| == 2 && past[1] == Did(GetSpace, true) && PrepareStage(f, names, es, ok)
    ensures Justified(past, es) && FailsLast(es) && (ok ==> AllOk(es) && AppReady(es, AppIn(es)))
  {
    hide Borrowed, Deployed, Ready, Justified;
    if f.existingApp {
      BorrowedJustified(past, names, es, ok);
    } else {
      var binding, groups :| Deployed(AppIn(es), names, es, binding, groups, ok);
      DeployedJustified(past, AppIn(es), names, es, binding, groups, ok);
    }
  }

  lemma PlanJustified(past: seq<Event>, guid: string, fetch: seq<Event>, files: seq<Event>)
    requires PlanStage(guid, fetch, files) && AppReady(past, guid)
    ensures Justified(past, fetch) && Justified(past + fetch, files)
  {
    var j :| 0 <= j < |past| && past[j].ok
             && (past[j].call == PollStarted(guid) || (past[j].call.GetServiceBindings? && past[j].call.guid == guid));
    ReadyAfter(past, j, fetch[0].call);
    AllReady(past, fetch);
    if files != [] {
      ReadyAfter(past + fetch + files[..0], |past|, files[0].call);
      if |files| == 2 { ReadyAfter(past + fetch + files[..1], |past| + 1, files[1].call); }
    }
  }

  /** The bindings of the app have been fetched. */
  predicate Fetched(past: seq<Event>) {
    exists j | 0 <= j < |past| :: past[j].ok && past[j].call.GetAppEnv?
  }

  lemma FetchedMore(past: seq<Event>, more: seq<Event>)
    requires Fetched(past)
    ensures Fetched(past + more)
  {
    var j :| 0 <= j < |past| && past[j].ok && past[j].call.GetAppEnv?;
    assert (past + more)[j] == past[j];
  }

  lemma FetchedReady(past: seq<Event>, c: Call)
    requires Fetched(past) && (c.Listen? || c.RunProgram?)
    ensures Ready(past, c)
  {
    var j :| 0 <= j < |past| && past[j].ok && past[j].call.GetAppEnv?;
    ReadyAfter(past, j, c);
  }

  lemma ListensJustified(past: seq<Event>, fs: seq<ForwardAddrs>)
    requires Fetched(past)
    ensures Justified(past, ListenEvents(fs) + WaitEvents(fs))
  {
    hide Ready, Addr;
    var listens, waits := ListenEvents(fs), WaitEvents(fs);
    forall i | 0 <= i < |listens| ensures Ready(past, listens[i].call) { FetchedReady(past, listens[i].call); }
    AllReady(past, listens);
    forall i | 0 <= i < |waits| ensures Ready(past + listens, waits[i].call) {
      assert (past + listens)[|past| + i] == listens[i];
      ReadyAfter(past + listens, |past| + i, waits[i].call);
    }
    AllReady(past + listens, waits);
    JustifiedMore(past, listens, waits);
  }

  lemma {:induction false} TLSJustified(past: seq<Event>, fs: seq<ForwardAddrs>)
    requires Fetched(past)
    ensures Justified(past, TLSEvents(fs))
  {
    hide Ready, Addr, TLSPair, Justified, Fetched;
    if fs == [] {
      AllReady(past, []);
    } else {
      var init, last := TLSEvents(fs[..|fs| - 1]), fs[|fs| - 1];
      TLSJustified(past, fs[..|fs| - 1]);
      if last.tlsTunnelPort != 0 {
        FetchedMore(past, init);
        PairJustified(past + init, last);
        JustifiedMore(past, init, TLSPair(last));
      } else {
        assert init + [] == init;
      }
    }
  }

  lemma PairJustified(past: seq<Event>, fwd: ForwardAddrs)
    requires Fetched(past)
    ensures Justified(past, TLSPair(fwd))
  {
    hide Ready, Addr, Fetched;
    var es := TLSPair(fwd);
    FetchedReady(past, es[0].call);
    ReadyMore(past, es[..0], es[0].call);
    ReadyAfter(past + es[..1], |past|, es[1].call);
  }

  lemma SetUpJustified(past: seq<Event>, fs: seq<ForwardAddrs>, fetched: bool, setup: seq<Event>, secure: seq<Event>,
                       ok: bool)
    requires SetUpStage(fs, fetched, setup, secure, ok) && (fetched ==> Fetched(past))
    ensures Justified(past, setup) && Justified(past + setup, secure)
    ensures FailsLast(setup) && FailsLast(secure) && (secure != [] || ok ==> AllOk(setup)) && (ok ==> AllOk(secure))
    ensures setup != [] || secure != [] || ok ==> fetched
  {
    hide Ready, StopsAtFailure, ListenEvents, WaitEvents, TLSEvents, Fetched;
    if setup == [] && secure == [] && !ok {
      AllReady(past, []);
      AllReady(past + [], []);
    } else {
      var plan := ListenEvents(fs) + WaitEvents(fs);
      ListensJustified(past, fs);
      StopsJustified(past, plan, setup, AllOk(setup));
      ListenAndWaitAllOk(fs);
      StopsFailsLast(plan, setup, AllOk(setup));
      if AllOk(setup) {
        FetchedMore(past, setup);
        TLSJustified(past + setup, fs);
        TLSEventsAllOk(fs);
        StopsJustified(past + setup, TLSEvents(fs), secure, ok);
        StopsFailsLast(TLSEvents(fs), secure, ok);
      } else {
        AllReady(past + setup, []);
      }
    }
  }

  /** The calls up to those of planning, and the ones after. */
  function Early(r: Run): seq<Event> {
    r.init + r.prepare + r.fetch
  }

  function Late(r: Run): seq<Event> {
    r.setup + r.secure + r.command
  }

  lemma FrontJustified(f: Flags, names: seq<string>, runArgs: seq<string>, l: Layout, r: Run, ok: bool)
    requires InOrder(f, names, runArgs, l, r, ok)
    ensures Justified([], r.init + r.prepare) && FailsLast(r.init + r.prepare)
    ensures r.fetch != [] ==> AllOk(r.init + r.prepare) && AppReady(r.init + r.prepare, AppOf(r))
  {
    hide Ready, Justified, PrepareStage, SetUpStage, CommandStage, PlanStage, StopsAtFailure, AppReady;
    InitJustified(r.init, r.prepare != []);
    AllReady(r.init, []);
    assert [] + r.init == r.init;
    if r.prepare == [] {
      assert r.init + r.prepare == r.init;
    } else {
      PrepareJustified(r.init, f, names, r.prepare, r.fetch != []);
      JustifiedMore([], r.init, r.prepare);
      if r.fetch != [] { ReadyInFront(r.init, r.prepare, AppOf(r)); }
    }
  }

  lemma EarlyJustified(f: Flags, names: seq<string>, runArgs: seq<string>, l: Layout, r: Run, ok: bool)
    requires InOrder(f, names, runArgs, l, r, ok)
    ensures Justified([], Early(r)) && Justified(Early(r), r.files) && FailsLast(Early(r))
    ensures r.files != [] || Late(r) != [] ==> AllOk(Early(r)) && Fetched(Early(r)) && r.fetch != [] && r.fetch[0].ok
  {
    hide Ready, Justified, PrepareStage, SetUpStage, CommandStage, StopsAtFailure, FilesStage, AppReady, Late;
    FrontJustified(f, names, runArgs, l, r, ok);
    LateNeedsFetch(f, names, runArgs, l, r, ok);
    var front := r.init + r.prepare;
    assert [] + front == front;
    if r.fetch == [] {
      assert Early(r) == front;
      AllReady(front, []);
    } else {
      PlanJustified(front, AppOf(r), r.fetch, r.files);
      JustifiedMore([], front, r.fetch);
      assert Early(r)[|front|] == r.fetch[0];
    }
  }

  lemma ReadyInFront(a: seq<Event>, b: seq<Event>, guid: string)
    requires AppReady(b, guid)
    ensures AppReady(a + b, guid)
  {
    var j :| 0 <= j < |b| && b[j].ok
             && (b[j].call == PollStarted(guid) || (b[j].call.GetServiceBindings? && b[j].call.guid == guid));
    assert (a + b)[|a| + j] == b[j];
  }

  lemma LateNeedsFetch(f: Flags, names: seq<string>, runArgs: seq<string>, l: Layout, r: Run, ok: bool)
    requires InOrder(f, names, runArgs, l, r, ok)
    ensures r.files != [] || Late(r) != [] ==> r.fetch != [] && r.fetch[0].ok
  {
    hide PrepareStage, CommandStage, StopsAtFailure, FilesStage;
  }

  lemma LateJustified(f: Flags, names: seq<string>, runArgs: seq<string>, l: Layout, r: Run, ok: bool)
    requires InOrder(f, names, runArgs, l, r, ok)
    ensures Justified(Early(r) + r.files, Late(r)) && FailsLast(Late(r))
  {
    hide Ready, Justified, PrepareStage, SetUpStage, StopsAtFailure, FilesStage;
    var past := Early(r) + r.files;
    EarlyJustified(f, names, runArgs, l, r, ok);
    if Late(r) == [] {
      AllReady(past, []);
    } else {
      FetchedMore(Early(r), r.files);
      SetUpJustified(past, l.forwards, r.fetch[0].ok, r.setup, r.secure, Connected(runArgs, r, ok));
      JustifiedMore(past, r.setup, r.secure);
      FetchedMore(past, r.setup + r.secure);
      if r.command != [] { FetchedReady(past + (r.setup + r.secure), r.command[0].call); }
      AllReady(past + (r.setup + r.secure), r.command);
      JustifiedMore(past, r.setup + r.secure, r.command);
    }
  }

  /** Up to the end of the program each call waits for the one it needs to have
      worked: the space for the org, the app for the space, starting it for its bits,
      binding for the listed instances, listening for the fetched bindings, and so on. */
  lemma EachCallWaits(f: Flags, names: seq<string>, runArgs: seq<string>, l: Layout, r: Run, ok: bool, i: nat)
    requires InOrder(f, names, runArgs, l, r, ok) && i < |Stages(r)|
    ensures var es := Stages(r);
      es[i].call.GetOrg? || exists j | 0 <= j < i :: es[j].ok && Needs(es[i].call, es[j].call)
  {
    hide Justified, InOrder, Needs;
    EarlyJustified(f, names, runArgs, l, r, ok);
    LateJustified(f, names, runArgs, l, r, ok);
    assert [] + Early(r) == Early(r) && [] + (Early(r) + r.files) == Early(r) + r.files;
    JustifiedMore([], Early(r), r.files);
    JustifiedMore([], Early(r) + r.files, Late(r));
    assert Stages(r) == Early(r) + r.files + Late(r);
    AtReady(Stages(r), i);
  }

  lemma AtReady(es: seq<Event>, i: nat)
    requires Justified([], es) && i < |es|
    ensures es[i].call.GetOrg? || exists j | 0 <= j < i :: es[j].ok && Needs(es[i].call, es[j].call)
  {
    hide Needs;
    assert Ready([] + es[..i], es[i].call);
    if j :| 0 <= j < |[] + es[..i]| && ([] + es[..i])[j].ok && Needs(es[i].call, ([] + es[..i])[j].call) {
      assert ([] + es[..i])[j] == es[j];
    }
  }

  /** Nothing but the teardown comes after a call that failed, save one of those
      that write my.cnf. */
  lemma FailureIsTheEnd(f: Flags, names: seq<string>, runArgs: seq<string>, l: Layout, r: Run, ok: bool, i: nat)
    requires InOrder(f, names, runArgs, l, r, ok) && i + 1 < |Stages(r)|
    ensures Stages(r)[i].ok || TouchesFiles(Stages(r)[i].call)
  {
    hide InOrder, Justified;
    EarlyJustified(f, names, runArgs, l, r, ok);
    LateJustified(f, names, runArgs, l, r, ok);
    var n, m := |Early(r)|, |Early(r)| + |r.files|;
    assert Stages(r) == Early(r) + r.files + Late(r);
    FilesAreFiles(f, names, runArgs, l, r, ok);
    if i < n { assert Stages(r)[i] == Early(r)[i]; }
    else if i < m { assert Stages(r)[i] == r.files[i - n]; }
    else { assert Stages(r)[i] == Late(r)[i - m]; }
  }

  lemma FilesAreFiles(f: Flags, names: seq<string>, runArgs: seq<string>, l: Layout, r: Run, ok: bool)
    requires InOrder(f, names, runArgs, l, r, ok)
    ensures forall i | 0 <= i < |r.files| :: TouchesFiles(r.files[i].call)
  {
    hide PrepareStage, SetUpStage, CommandStage, StopsAtFailure;
  }

  /** When the program is run, every address that a forward or a TLS tunnel listens
      on has been opened and answered. */
  lemma RunsBehindTunnels(f: Flags, names: seq<string>, runArgs: seq<string>, l: Layout, r: Run, ok: bool, j: nat)
    requires InOrder(f, names, runArgs, l, r, ok) && r.command != [] && j < |l.forwards|
    ensures var local := Addr("localhost", l.forwards[j].localPort);
      Did(Listen(local), true) in r.setup && Did(WaitFor(local), true) in r.setup
    ensures var secure := Addr("localhost", l.forwards[j].tlsTunnelPort);
      l.forwards[j].tlsTunnelPort != 0 ==>
        Did(Listen(secure), true) in r.secure && Did(WaitFor(secure), true) in r.secure
  {
    hide PrepareStage, CommandStage, Addr, PlanStage, TLSEvents;
    var fs := l.forwards;
    ListenAndWaitAllOk(fs);
    StopsUnlessAllOk(ListenEvents(fs) + WaitEvents(fs), r.setup, AllOk(r.setup));
    assert r.setup == ListenEvents(fs) + WaitEvents(fs) && r.secure == TLSEvents(fs);
    assert r.setup[j] == ListenEvents(fs)[j] && r.setup[|fs| + j] == WaitEvents(fs)[j];
    if fs[j].tlsTunnelPort != 0 { HoldsPair(fs, j); }
  }

  lemma {:induction false} HoldsPair(fs: seq<ForwardAddrs>, j: nat)
    requires j < |fs| && fs[j].tlsTunnelPort != 0
    ensures TLSPair(fs[j])[0] in TLSEvents(fs) && TLSPair(fs[j])[1] in TLSEvents(fs)
  {
    if j < |fs| - 1 { HoldsPair(fs[..|fs| - 1], j); }
  }

  /** An app is created only without --existing-app, and looked up only with it. */
  lemma CreatesOrFinds(f: Flags, names: seq<string>, runArgs: seq<string>, l: Layout, r: Run, ok: bool)
    requires InOrder(f, names, runArgs, l, r, ok) && r.prepare != []
    ensures if f.existingApp then r.prepare[0].call.GetApp? else r.prepare[0].call.CreateApp?
  {
    hide PrepareStage, SetUpStage, PlanStage, CommandStage;
    PrepareTouchesOnce(f, names, r.prepare, r.fetch != []);
  }

  /** The port is not 0 and some lookup finds a host. */
  ghost predicate HasHostAndPort(creds: Bindings) {
    PortOf(creds) != 0 && exists host :: host != "" && MayGet(creds, ["host", "hostname"], host)
  }

  lemma UsableHasBoth(creds: Bindings)
    requires Usable(creds)
    ensures HasHostAndPort(creds)
  {
    hide MayGet, PortOf;
  }

  /** Once a new app is bound, it is bound to exactly the instances with a requested
      name, each binding having a port and a host. */
  lemma BoundAsRequested(f: Flags, names: seq<string>, runArgs: seq<string>, l: Layout, r: Run, ok: bool)
    returns (instances: map<string, string>)
    requires InOrder(f, names, runArgs, l, r, ok) && r.fetch != [] && !f.existingApp
    ensures Did(GetServiceInstances(instances), true) in r.prepare
    ensures forall g :: (exists creds :: Did(BindService(AppOf(r), g, creds), true) in r.prepare) <==>
      g in instances && instances[g] in names
    ensures forall name | name in names :: exists g :: g in instances && instances[g] == name
    ensures forall e | e in r.prepare && e.call.BindService? :: e.ok && HasHostAndPort(e.call.creds)
  {
    hide SetUpStage, PlanStage, CommandStage, StopsAtFailure, HasHostAndPort;
    var es, guid := r.prepare, AppOf(r);
    var binding: seq<Event>, groups :| Deployed(guid, names, es, binding, groups, true);
    instances := binding[0].call.instances;
    var bound := binding[1..];
    assert es == DeployEvents(guid) + [binding[0]] + bound;
    assert es[4] == binding[0];
    BoundEvents(instances, names, groups, guid, bound);
    forall e | e in es && e.call.BindService? ensures e in bound {
      var i :| 0 <= i < |es| && es[i] == e;
      assert i >= 5 && e == bound[i - 5];
    }
    assert forall e | e in bound :: e in es;
  }

  lemma BoundEvents(instances: map<string, string>, names: seq<string>, groups: seq<seq<string>>, guid: string,
                    bound: seq<Event>)
    requires BindSteps(guid, instances, names, groups, bound, true)
    ensures forall g :: (exists creds :: Did(BindService(guid, g, creds), true) in bound) <==>
      g in instances && instances[g] in names
    ensures forall name | name in names :: exists g :: g in instances && instances[g] == name
    ensures forall e | e in bound && e.call.BindService? :: e.ok && HasHostAndPort(e.call.creds)
  {
    hide Concat, Usable, HasHostAndPort;
    var all := Concat(groups);
    assert bound[..|all|] == bound;
    BoundExactly(instances, names, groups);
    forall e | e in bound ensures e.call.BindService? && e.ok && HasHostAndPort(e.call.creds) {
      var i :| 0 <= i < |bound| && bound[i] == e;
      assert Binds(bound[i], guid, all[i]);
      UsableHasBoth(bound[i].call.creds);
    }
    forall g ensures (exists creds :: Did(BindService(guid, g, creds), true) in bound) <==> g in all {
      if g in all {
        var i :| 0 <= i < |all| && all[i] == g;
        assert Binds(bound[i], guid, g);
        assert bound[i] == Did(BindService(guid, g, bound[i].call.creds), true);
      }
      if creds :| Did(BindService(guid, g, creds), true) in bound {
        var i :| 0 <= i < |bound| && bound[i] == Did(BindService(guid, g, creds), true);
        assert Binds(bound[i], guid, all[i]);
      }
    }
  }

  /** The parts of a teardown come in this order. */
  function Part(c: Call): nat {
    match c
    case CloseTLS(_) => 0
    case StopSSH => 1
    case RemoveAll(_) => 2
    case _ => 3
  }

  predicate AllOf(es: seq<Event>, part: nat) {
    forall k | 0 <= k < |es| :: Part(es[k].call) == part
  }

  lemma RemovesOnly(es: seq<Event>, dirs: map<string, string>)
    requires EachOnce(es, dirs)
    ensures AllOf(es, 2)
  {
    var order :| RemovesInOrder(es, dirs, order);
  }

  lemma FourParts(a: seq<Event>, b: seq<Event>, c: seq<Event>, d: seq<Event>, i: nat, j: nat)
    requires AllOf(a, 0) && AllOf(b, 1) && AllOf(c, 2) && AllOf(d, 3) && i <= j < |a + b + c + d|
    ensures Part((a + b + c + d)[i].call) <= Part((a + b + c + d)[j].call)
  {
    hide Part;
    forall k | k == i || k == j
      ensures Part((a + b + c + d)[k].call) ==
        if k < |a| then 0 else if k < |a + b| then 1 else if k < |a + b + c| then 2 else 3
    {
    }
  }

  /** TLS tunnels are closed before the SSH tunnel is stopped, then directories are
      removed, and the app is destroyed last. */
  lemma TeardownOrder(e: Ending, tlsAddrs: seq<string>, tunnel: bool, dirs: map<string, string>, destroys: bool,
                      guid: string, i: nat, j: nat)
    requires FullEnding(e, tlsAddrs, tunnel, dirs, destroys, guid) && i <= j < |EventsOf(e)|
    ensures Part(EventsOf(e)[i].call) <= Part(EventsOf(e)[j].call)
  {
    hide EachOnce;
    RemovesOnly(e.providers, dirs);
    FourParts(e.tls, e.ssh, e.providers, e.app, i, j);
  }

  /** An app is destroyed a second time only if the first time failed and the token
      was refreshed in between, which is tried only then; and never a third time. */
  lemma DestroysAgain(f: Flags, r: Run, i: nat, j: nat)
    requires ValidRun(f, r) && i < j < |Calls(r)| && Calls(r)[i].call.DestroyApp?
    ensures !Calls(r)[i].ok || !(Calls(r)[j].call.DestroyApp? || Calls(r)[j].call.RefreshToken?)
    ensures Calls(r)[j].call.DestroyApp? ==>
      j == i + 2 == |Calls(r)| - 1 && Calls(r)[i + 1] == Did(RefreshToken, true)
      && Calls(r)[j].call == Calls(r)[i].call
  {
    hide FilesStage, Cleans;
    OnlyOneTouch(f, r);
    var es, head, app := Calls(r), Head(r), r.ending.app;
    assert forall k | |head| <= k < |es| :: es[k] == app[k - |head|];
    assert i >= |head|;
  }

  /** Between calls that leave files alone, the calls of planning and of the teardown. */
  lemma OneRemoval(a: seq<Event>, files: seq<Event>, b: seq<Event>, last: seq<Event>, c: seq<Event>, i: nat)
    requires LeavesFiles(a) && LeavesFiles(b) && LeavesFiles(c) && FilesStage(files) && Cleans(last, DirOf(files))
    requires i < |a + files + b + last + c|
    ensures var es := a + files + b + last + c;
      && (es[i].call.MakeDir? && es[i].ok ==>
            exists j | i < j < |es| :: es[j].call == RemoveAll(es[i].call.dir))
      && (es[i].call.RemoveAll? ==> exists j | 0 <= j < i :: es[j] == Did(MakeDir(es[i].call.dir), true))
      && forall j | 0 <= j < |es| && es[j].call.RemoveAll? && es[i].call.RemoveAll? :: j == i
  {
    var es, dir := a + files + b + last + c, DirOf(files);
    var n, m := |a|, |a| + |files| + |b|;
    forall k | 0 <= k < |es|
      ensures es[k].call.RemoveAll? ==> k == m && dir != ""
      ensures es[k].call.MakeDir? && es[k].ok ==> k == n && dir != ""
    {
      if k < n { assert es[k] == a[k]; }
      else if k < n + |files| { assert es[k] == files[k - n]; }
      else if k < m { assert es[k] == b[k - n - |files|]; }
      else if k < m + |last| { assert es[k] == last[k - m]; }
      else { assert es[k] == c[k - m - |last|]; }
    }
    if dir != "" { assert es[m] == last[0] && es[n] == files[0]; }
  }

  /** A directory made in a run is removed once later in it, and nothing else is. */
  lemma RemovesWhatItMade(f: Flags, r: Run, i: nat)
    requires ValidRun(f, r) && i < |Calls(r)|
    ensures Calls(r)[i].call.MakeDir? && Calls(r)[i].ok ==>
      exists j | i < j < |Calls(r)| :: Calls(r)[j].call == RemoveAll(Calls(r)[i].call.dir)
    ensures Calls(r)[i].call.RemoveAll? ==>
      exists j | 0 <= j < i :: Calls(r)[j] == Did(MakeDir(Calls(r)[i].call.dir), true)
    ensures forall j | 0 <= j < |Calls(r)| && Calls(r)[j].call.RemoveAll? && Calls(r)[i].call.RemoveAll? :: j == i
  {
    hide FilesStage, Cleans;
    var a := r.init + r.prepare + r.fetch;
    var b := r.setup + r.secure + r.command + r.ending.tls + r.ending.ssh;
    LeavesFilesAround(f, r, a, b);
    assert Calls(r) == a + r.files + b + r.ending.providers + r.ending.app;
    OneRemoval(a, r.files, b, r.ending.providers, r.ending.app, i);
  }

  predicate LeavesFiles(es: seq<Event>) {
    forall i | 0 <= i < |es| :: !TouchesFiles(es[i].call)
  }

  lemma LeavesFilesAround(f: Flags, r: Run, a: seq<Event>, b: seq<Event>)
    requires ValidRun(f, r) && a == r.init + r.prepare + r.fetch
    requires b == r.setup + r.secure + r.command + r.ending.tls + r.ending.ssh
    ensures LeavesFiles(a) && LeavesFiles(b) && LeavesFiles(r.ending.app)
  {
    hide FilesStage, Cleans;
    assert LeavesFiles(r.prepare) by {
      assert r.prepare != [] ==> r.prepare == [r.prepare[0]] + r.prepare[1..];
    }
    assert LeavesFiles(r.ending.tls + r.ending.ssh);
    assert b == r.setup + r.secure + r.command + (r.ending.tls + r.ending.ssh);
  }
}
