/** conduit/app.go: the application object that creates or finds the app, plans
    and opens the tunnels, and tears everything down again. */
module Conduit {
  import opened GoStrings
  import opened ServiceCredentials
  import opened Outside
  import opened Services
  import opened Plan
  import opened Vcap
  import opened Visiting
  import opened Routing
  import opened Tunnels
  import opened Lifecycle
  import opened ProgramView

  class App {
    const world: World
    const names: seq<string>
    const runArgs: seq<string>
    const program: string
    const deleteApp: bool
    /** `json.Marshal`, which is taken to succeed. */
    const marshal: Environment -> string
    var providers: map<string, Provider>
    var nextPort: int
    var appGUID: string
    var services: Listing
    var runEnv: map<string, string>
    var forwardAddrs: seq<ForwardAddrs>
    var tunnel: SSHTunnel?
    var tlsTunnels: seq<TLSTunnel>

    constructor (world: World, localPort: int, deleteApp: bool, names: seq<string>, runArgs: seq<string>,
                 marshal: Environment -> string)
      ensures this.world == world && this.names == names && this.runArgs == runArgs && this.deleteApp == deleteApp
      ensures program == (if runArgs == [] then "" else runArgs[0]) && this.marshal == marshal
      ensures providers == map[] && nextPort == localPort && appGUID == "" && services == map[] && runEnv == map[]
      ensures forwardAddrs == [] && tunnel == null && tlsTunnels == []
    {
      this.world, this.names, this.runArgs, this.deleteApp, this.marshal := world, names, runArgs, deleteApp, marshal;
      program := if runArgs == [] then "" else runArgs[0];
      providers, nextPort, appGUID, services, runEnv := map[], localPort, "", map[], map[];
      forwardAddrs, tunnel, tlsTunnels := [], null, [];
    }

    function ConfigNow(): Config
      reads `providers, providers.Values
    {
      Config(program, map t | t in providers :: providers[t].State())
    }

    function FieldsNow(): Fields
      reads `nextPort, `forwardAddrs, `runEnv, `providers, providers.Values
    {
      Fields(nextPort, forwardAddrs, runEnv, ConfigNow())
    }

    /** The fields and the credentials are those the pass has reached. */
    ghost predicate Tracks(v: Visit, p: Pass)
      reads `nextPort, `forwardAddrs, `runEnv, `providers, providers.Values, world
      reads set i | 0 <= i < |v.refs| :: v.refs[i].service.credentials
    {
      v.before <= world.trace && Matches(v, p, FieldsNow(), CredsAt(v.refs), world.trace[|v.before|..])
    }

    /** One binding to keep: plan its forward, rewrite its credentials, and set up
        the program's environment if this is the first binding it can use. */
    method KeepInstance(svc: VcapService, serviceType: string, satisfied: bool, ghost c: Config, ghost slot: Slot)
      returns (nowSatisfied: bool, ghost seen: Seen, ghost files: seq<Event>)
      requires slot.serviceType == serviceType && slot.entry.creds == svc.credentials.entries
      requires serviceType in c.providers && SameKinds(ConfigNow(), c)
      modifies world, `nextPort, `forwardAddrs, `runEnv, svc.credentials, providers.Values
      ensures Handles(c, slot, seen, satisfied, old(FieldsNow()), FieldsNow(), svc.credentials.entries, files)
      ensures world.trace == old(world.trace) + files
      ensures nowSatisfied == (satisfied || IsClientOf(c, serviceType))
    {
      hide Rewrite, MayGet, MayBeTLSService, Addr, PortOf, NonTLSClients, MayInitEnv, KnownClients, WritesMyCnf;
      hide Wrote, ConfigNow;
      HasProvider(serviceType);
      var fwd, tls;
      ghost var host, writes;
      fwd, tls, host := PlanForward(svc, serviceType, c, slot);
      ghost var oldHost := svc.credentials.SetAddress(LOOPBACK, fwd.ConnectPort());
      nowSatisfied, writes, files := SetUpProgram(svc, serviceType, satisfied);
      seen := Seen(host, tls, oldHost, writes);
    }

    lemma HasProvider(t: string)
      requires t in ConfigNow().providers
      ensures t in providers && ConfigNow().providers[t] == providers[t].State() && ConfigNow().program == program
    {
    }

    /** `InitEnv`, if the provider knows the program and none did before. */
    method SetUpProgram(svc: VcapService, serviceType: string, satisfied: bool)
      returns (nowSatisfied: bool, ghost writes: map<string, string>, ghost files: seq<Event>)
      requires serviceType in providers
      modifies world, `runEnv, providers.Values
      ensures world.trace == old(world.trace) + files
      ensures nowSatisfied == (satisfied || program in KnownClients(providers[serviceType].kind))
      ensures SameKinds(ConfigNow(), old(ConfigNow()))
      ensures if !satisfied && program in KnownClients(providers[serviceType].kind)
              then runEnv == old(runEnv) + writes
                   && MayInitEnv(old(ConfigNow()).providers[serviceType], svc.credentials.entries, writes)
                   && Wrote(old(ConfigNow()), ConfigNow(), serviceType, svc.credentials.entries, old(runEnv), runEnv,
                            files)
              else runEnv == old(runEnv) && ConfigNow() == old(ConfigNow()) && files == []
    {
      hide MayInitEnv, KnownClients, WritesMyCnf;
      nowSatisfied, writes, files := satisfied, map[], [];
      if !satisfied && program in KnownClients(providers[serviceType].kind) {
        var more, ok;
        more, ok, files := providers[serviceType].InitEnv(svc.credentials, world);
        runEnv := runEnv + more;
        nowSatisfied, writes := true, more;
      }
    }

    /** The forward of a binding, with the next port or the next two. */
    method PlanForward(svc: VcapService, serviceType: string, ghost c: Config, ghost slot: Slot)
      returns (fwd: ForwardAddrs, tls: bool, ghost host: string)
      requires slot.serviceType == serviceType && slot.entry.creds == svc.credentials.entries && c.program == program
      requires serviceType in providers && serviceType in c.providers
      requires providers[serviceType].kind == c.providers[serviceType].kind
      modifies `nextPort, `forwardAddrs
      ensures MayGet(slot.entry.creds, HOST_KEYS, host)
      ensures serviceType == "redis" ==> MayBeTLSService(c.providers[serviceType].kind, slot.entry.creds, tls)
      ensures forall seen: Seen | seen.remoteHost == host && seen.tls == tls ::
        && fwd == ForwardOf(c, old(nextPort), slot, seen)
        && nextPort == old(nextPort) + (if WantsTLS(c, slot, seen) then 2 else 1)
      ensures forwardAddrs == old(forwardAddrs) + [fwd]
    {
      var provider := providers[serviceType];
      var h := svc.credentials.Host();
      host := h;
      var port := svc.credentials.Port();
      fwd := ForwardAddrs(nextPort, 0, Addr(h, port));
      nextPort := nextPort + 1;
      tls := false;
      if serviceType == "redis" {
        tls := provider.IsTLSEnabled(svc.credentials);
        if tls && program in NonTLSClients(provider.kind) {
          fwd := fwd.(tlsTunnelPort := nextPort);
          nextPort := nextPort + 1;
        }
      }
      forwardAddrs := forwardAddrs + [fwd];
    }

    /** `KeepInstance` is a step of the pass. */
    method StepInstance(svc: VcapService, serviceType: string, satisfied: bool, ghost v: Visit, ghost seens: seq<Seen>)
      returns (nowSatisfied: bool, ghost nowSeens: seq<Seen>)
      requires Wellformed(v) && |seens| < |v.slots| && SeenOf(v, seens) && Tracks(v, PassOf(v, seens))
      requires v.refs[|seens|] == Ref(serviceType, svc) && Keeps(v.c, PassOf(v, seens), v.slots[|seens|])
      requires satisfied == PassOf(v, seens).client.Some? && |seens| !in PassOf(v, seens).after
      modifies world, `nextPort, `forwardAddrs, `runEnv, svc.credentials, providers.Values
      ensures |nowSeens| == |seens| + 1 && SeenOf(v, nowSeens)
      ensures PassOf(v, nowSeens) == Step(v.c, PassOf(v, seens), |seens|, v.slots[|seens|], nowSeens[|seens|])
      ensures Tracks(v, PassOf(v, nowSeens))
      ensures nowSatisfied == (satisfied || IsClientOf(v.c, serviceType))
    {
      hide Handles, MaySee, Step, PassOf, SeenOf, KnownClients, Refs, Less, StrictlySorted, Matches;
      hide ConfigNow, SameKinds;
      ghost var i, p, slot := |seens|, PassOf(v, seens), v.slots[|seens|];
      ghost var w, before, trace := FieldsNow(), CredsAt(v.refs), world.trace;
      MatchesSlot(v, p, w, before, trace[|v.before|..], i);
      assert v.refs[i].service == svc && slot.entry.creds == svc.credentials.entries;
      ghost var seen, files;
      nowSatisfied, seen, files := KeepInstance(svc, serviceType, satisfied, v.c, slot);
      nowSeens := seens + [seen];
      HandledIsStep(v, p, i, seen, w, FieldsNow(), before, CredsAt(v.refs), trace[|v.before|..], files);
      assert world.trace[|v.before|..] == trace[|v.before|..] + files;
      OneMore(v, seens, seen);
    }

    /** One binding: skipped, kept, or of a type nobody knows. */
    method VisitInstance(svc: VcapService, serviceType: string, waiting: set<string>, satisfied: bool,
                         ghost v: Visit, ghost seens: seq<Seen>)
      returns (verdict: Verdict, nowWaiting: set<string>, nowSatisfied: bool, ghost nowSeens: seq<Seen>)
      requires Wellformed(v) && |seens| < |v.slots| && SeenOf(v, seens) && Tracks(v, PassOf(v, seens))
      requires AsPass(PassOf(v, seens), waiting, satisfied) && v.refs[|seens|] == Ref(serviceType, svc)
      modifies world, `nextPort, `forwardAddrs, `runEnv, svc.credentials, providers.Values
      ensures |nowSeens| == |seens| + 1 && SeenOf(v, nowSeens) && Tracks(v, PassOf(v, nowSeens))
      ensures verdict != Unknown ==> AsPass(PassOf(v, nowSeens), nowWaiting, nowSatisfied)
      ensures verdict == Unknown ==> PassOf(v, nowSeens).stopped == Some(|seens|)
      ensures PassOf(v, nowSeens).kept == PassOf(v, seens).kept + if verdict == Keep then [|seens|] else []
    {
      hide Rewrite, CredsAfter, ForwardOf, WantsTLS, MayGet, MayBeTLSService, MayInitEnv, PassAfter, AllSeen;
      hide Matches, Less, StrictlySorted;
      ghost var i, p := |seens|, PassOf(v, seens);
      nowSatisfied := satisfied;
      if svc.instanceName !in waiting {
        OneMore(v, seens, NOTHING_SEEN);
        return Skip, waiting, satisfied, seens + [NOTHING_SEEN];
      }
      nowWaiting := waiting - {svc.instanceName};
      MatchesKinds(v, p, FieldsNow(), CredsAt(v.refs), world.trace[|v.before|..]);
      if serviceType !in providers {
        OneMore(v, seens, NOTHING_SEEN);
        MatchesStill(v, p, PassOf(v, seens + [NOTHING_SEEN]), FieldsNow(), CredsAt(v.refs), world.trace[|v.before|..]);
        return Unknown, nowWaiting, satisfied, seens + [NOTHING_SEEN];
      }
      NotYetKept(v, seens);
      nowSatisfied, nowSeens := StepInstance(svc, serviceType, satisfied, v, seens);
      StepKept(v.c, p, i, v.slots[i], nowSeens[i]);
      verdict := Keep;
    }

    /** The bindings of one service type: those that satisfy a waiting name are
        kept, unless nobody knows the type. */
    method VisitType(serviceType: string, list: seq<VcapService>, waiting: set<string>, satisfied: bool,
                     ghost v: Visit, ghost seens: seq<Seen>)
      returns (kept: seq<VcapService>, nowWaiting: set<string>, nowSatisfied: bool, unknown: Option<VcapService>,
               ghost nowSeens: seq<Seen>, ghost more: seq<nat>)
      requires Wellformed(v) && |seens| + |list| <= |v.slots| && SeenOf(v, seens) && Tracks(v, PassOf(v, seens))
      requires AsPass(PassOf(v, seens), waiting, satisfied)
      requires forall j | 0 <= j < |list| :: v.refs[|seens| + j] == Ref(serviceType, list[j])
      modifies world, `nextPort, `forwardAddrs, `runEnv, CredsOf(list), providers.Values
      ensures |nowSeens| <= |v.slots| && SeenOf(v, nowSeens) && Tracks(v, PassOf(v, nowSeens))
      ensures PassOf(v, nowSeens).kept == PassOf(v, seens).kept + more && AllOfType(v, more, serviceType)
      ensures match unknown
        case None =>
          && |nowSeens| == |seens| + |list| && AsPass(PassOf(v, nowSeens), nowWaiting, nowSatisfied)
          && kept == At(v.refs, more)
        case Some(svc) =>
          StoppedAt(v, PassOf(v, nowSeens), svc.instanceName, serviceType)
    {
      hide SeenOf, PassOf, Matches, FieldsNow, CredsAt;
      kept, nowWaiting, nowSatisfied, nowSeens, more, unknown := [], waiting, satisfied, seens, [], None;
      for j := 0 to |list|
        invariant |nowSeens| == |seens| + j && SeenOf(v, nowSeens) && Tracks(v, PassOf(v, nowSeens))
        invariant AsPass(PassOf(v, nowSeens), nowWaiting, nowSatisfied)
        invariant PassOf(v, nowSeens).kept == PassOf(v, seens).kept + more && AllOfType(v, more, serviceType)
        invariant kept == At(v.refs, more)
      {
        ghost var i := |nowSeens|;
        assert v.refs[i] == Ref(serviceType, list[j]);
        var verdict;
        verdict, nowWaiting, nowSatisfied, nowSeens :=
          VisitInstance(list[j], serviceType, nowWaiting, nowSatisfied, v, nowSeens);
        if verdict == Unknown {
          unknown := Some(list[j]);
          return;
        }
        if verdict == Keep {
          kept, more := kept + [list[j]], more + [i];
        }
      }
    }

    lemma BeginVisit(v: Visit, env: Environment)
      requires Values(services) == env && AllApart(services)
      requires StrictlySorted(v.keys) && forall k :: k in v.keys <==> k in services
      requires v == Visit(ConfigNow(), names, nextPort, runEnv, forwardAddrs, world.trace, services, v.keys,
                          Refs(v.keys, services), Slots(v.keys, env))
      ensures Visited(v, env, [], 0) && Slots(v.keys[..0], env) == []
      ensures AsPass(PassOf(v, []), set n | n in names, false)
    {
      hide Less, KnownClients, AllApart, Rewrite, Entries, StrictlySorted, Wrote;
      RefsUnshared(v.keys, services);
      RefsHold(v.keys, services, env);
    }

    /** The first `n` types have been visited and pruned. */
    ghost predicate Visited(v: Visit, env: Environment, seens: seq<Seen>, n: nat)
      reads `nextPort, `forwardAddrs, `runEnv, `providers, `services, providers.Values, world
      reads set i | 0 <= i < |v.refs| :: v.refs[i].service.credentials
    {
      && SetUp(v, env) && n <= |v.keys| && |seens| <= |v.slots|
      && SeenOf(v, seens) && Tracks(v, PassOf(v, seens)) && InRange(v.slots, PassOf(v, seens).kept)
      && services == PrunedTo(v, PassOf(v, seens), n)
    }

    /** Cuts one type of the listing down to what was kept of it. */
    method Prune(serviceType: string, kept: seq<VcapService>, ghost refs: seq<Ref>)
      modifies `services
      ensures services == if kept == [] then old(services) - {serviceType} else old(services)[serviceType := kept]
      ensures FieldsNow() == old(FieldsNow()) && CredsAt(refs) == old(CredsAt(refs))
    {
      if kept == [] {
        services := services - {serviceType};
      } else {
        services := services[serviceType := kept];
      }
    }

    /** All bindings of the next type, and its pruning. */
    method PlanType(waiting: set<string>, satisfied: bool, serviceType: string,
                    ghost v: Visit, ghost env: Environment, ghost seens: seq<Seen>, ghost n: nat)
      returns (nowWaiting: set<string>, nowSatisfied: bool, unknown: Option<VcapService>, ghost nowSeens: seq<Seen>)
      requires n < |v.keys| && Visited(v, env, seens, n) && |seens| == |Slots(v.keys[..n], env)|
      requires AsPass(PassOf(v, seens), waiting, satisfied) && serviceType == v.keys[n]
      modifies world, `nextPort, `forwardAddrs, `runEnv, `services, CredsIn(v.original), providers.Values
      ensures Visited(v, env, nowSeens, if unknown.Some? then n else n + 1)
      ensures unknown.None? ==>
        && |nowSeens| == |Slots(v.keys[..n + 1], env)| <= |v.slots|
        && AsPass(PassOf(v, nowSeens), nowWaiting, nowSatisfied)
      ensures unknown.Some? ==>
        |nowSeens| == |v.slots| && StoppedAt(v, PassOf(v, nowSeens), unknown.value.instanceName, serviceType)
    {
      hide SeenOf, PassOf, Matches, FieldsNow, CredsAt, PrunedTo, KeptOf, Slots, Refs, Less, CredsIn, CredsOf;
      Offsets(v, env, n);
      NotYetKept(v, seens);
      NoneKeptYet(v, env, PassOf(v, seens), n);
      Unpruned(v, PassOf(v, seens), n);
      var kept;
      ghost var more;
      kept, nowWaiting, nowSatisfied, unknown, nowSeens, more :=
        VisitType(serviceType, services[serviceType], waiting, satisfied, v, seens);
      PrunedOn(v, PassOf(v, seens), PassOf(v, nowSeens), n, more);
      if unknown.Some? {
        nowSeens := Padded(v, nowSeens);
      } else {
        Prune(serviceType, kept, v.refs);
      }
    }

    /** The service types in sorted order. */
    method Begin(ghost env: Environment) returns (keys: seq<string>, ghost v: Visit)
      requires Values(services) == env && AllApart(services)
      ensures From(v, names, FieldsNow(), services) && v.original == services && v.keys == keys
      ensures v.before == world.trace
      ensures Visited(v, env, [], 0)
      ensures (forall k | k in keys :: k in env) && v.slots == Slots(keys, env)
      ensures Slots(keys[..0], env) == [] && AsPass(PassOf(v, []), set n | n in names, false)
    {
      hide Slots, Refs, Less, Visited, Entries;
      keys := SortedKeys(services.Keys);
      v := Visit(ConfigNow(), names, nextPort, runEnv, forwardAddrs, world.trace, services, keys,
                 Refs(keys, services), Slots(keys, env));
      BeginVisit(v, env);
    }

    /** The pass went over all types, or up to the one that nobody knows. */
    ghost predicate Reached(v: Visit, env: Environment, seens: seq<Seen>)
      requires |seens| == |v.slots| && (PassOf(v, seens).stopped.Some? ==> PassOf(v, seens).stopped.value < |v.slots|)
      reads `nextPort, `forwardAddrs, `runEnv, `providers, `services, providers.Values, world
      reads set i | 0 <= i < |v.refs| :: v.refs[i].service.credentials
    {
      match PassOf(v, seens).stopped
      case None => Visited(v, env, seens, |v.keys|)
      case Some(f) => exists n | 0 <= n < |v.keys| :: v.keys[n] == v.slots[f].serviceType && Visited(v, env, seens, n)
    }

    /** The pass over all bindings, by sorted service type. Types with nothing kept
        are dropped, the others cut down to what was kept. */
    method PlanBindings(ghost env: Environment) returns (outcome: Outcome, ghost v: Visit, ghost seens: seq<Seen>)
      requires Values(services) == env && AllApart(services)
      modifies world, `nextPort, `forwardAddrs, `runEnv, `services, CredsIn(services), providers.Values
      ensures From(v, names, old(FieldsNow()), old(services)) && v.before == old(world.trace)
      ensures |seens| == |v.slots| && (PassOf(v, seens).stopped.Some? ==> PassOf(v, seens).stopped.value < |v.slots|)
      ensures outcome == OutcomeOf(v.c, v.slots, PassOf(v, seens))
      ensures Reached(v, env, seens)
    {
      hide SeenOf, PassOf, Tracks, Visited, FieldsNow, Slots, Refs, Less, CredsIn, ValidTypes, Wellformed, From;
      var keys;
      keys, v := Begin(env);
      seens := [];
      var waiting, satisfied := set n | n in names, false;
      for n := 0 to |keys|
        invariant Visited(v, env, seens, n) && |seens| == |Slots(keys[..n], env)| <= |v.slots|
        invariant AsPass(PassOf(v, seens), waiting, satisfied)
      {
        var unknown;
        waiting, satisfied, unknown, seens := PlanType(waiting, satisfied, keys[n], v, env, seens, n);
        if unknown.Some? {
          outcome := UnknownType(unknown.value.instanceName, keys[n]);
          return;
        }
      }
      assert keys[..|keys|] == keys;
      outcome := Conclude(waiting, satisfied, v, env, seens);
    }

    /** How a pass over all bindings ends. */
    method Conclude(waiting: set<string>, satisfied: bool, ghost v: Visit, ghost env: Environment,
                    ghost seens: seq<Seen>)
      returns (outcome: Outcome)
      requires Visited(v, env, seens, |v.keys|) && AsPass(PassOf(v, seens), waiting, satisfied)
      ensures outcome == OutcomeOf(v.c, v.slots, PassOf(v, seens)) && Visited(v, env, seens, |v.keys|)
    {
      if waiting != {} {
        return MissingBindings(waiting);
      }
      if program == "" || satisfied {
        return Outcome.Planned;
      }
      var expected := set t | t in providers && program in KnownClients(providers[t].kind);
      assert SameKinds(ConfigNow(), v.c);
      assert expected == ValidTypes(v.c);
      outcome := if expected == {} then UnknownProgram(program) else WrongServiceType(program, expected);
    }

    /** A full visit leaves, under each type, the kept bindings with the credentials
        the pass gave them. */
    lemma VisitedValues(v: Visit, env: Environment, seens: seq<Seen>)
      requires Visited(v, env, seens, |v.keys|)
      ensures Keepable(v.slots, PassOf(v, seens), PassOf(v, seens).kept)
      ensures Values(services) == FinalServices(v.slots, PassOf(v, seens))
    {
      hide SeenOf, PassOf, Refs, Less, SameKinds, PrunedTo, FinalServices, Slots, KeptOf;
      var p := PassOf(v, seens);
      KeptIsKeepable(v, seens);
      PrunedAll(v, env, p);
      forall t | t in services ensures Entries(services[t]) == FinalServices(v.slots, p)[t] {
        assert FinalServices(v.slots, p)[t] == KeptEntries(v.slots, p, KeptOf(v.slots, p.kept, t));
        KeptValues(v, p, KeptOf(v.slots, p.kept, t));
      }
    }

    lemma VisitedFields(v: Visit, env: Environment, seens: seq<Seen>)
      requires Visited(v, env, seens, |v.keys|)
      ensures SetUp(v, env) && SeenOf(v, seens) && nextPort == PassOf(v, seens).nextPort
      ensures forwardAddrs == v.forwards + PassOf(v, seens).forwards && runEnv == PassOf(v, seens).env
      ensures SameKinds(ConfigNow(), v.c)
    {
    }

    lemma KeptValues(v: Visit, p: Pass, ks: seq<nat>)
      requires Wellformed(v) && Tracks(v, p) && Keepable(v.slots, p, ks)
      ensures Entries(At(v.refs, ks)) == KeptEntries(v.slots, p, ks)
    {
      hide Refs, Less, SameKinds, StrictlySorted;
      forall j | 0 <= j < |ks| ensures EntryOf(At(v.refs, ks)[j]) == KeptEntries(v.slots, p, ks)[j] {
        assert CredsAt(v.refs)[ks[j]] == p.after[ks[j]];
      }
    }

    function LayoutNow(): Layout
      reads `nextPort, `forwardAddrs, `services, `runEnv, `providers, providers.Values
      reads set t, i | t in services && 0 <= i < |services[t]| :: services[t][i].credentials
    {
      Layout(nextPort, forwardAddrs, runEnv, Values(services), ConfigNow())
    }

    /** The plan as the rest of the run finds it. */
    ghost predicate HasPlan(v: Visit, env: Environment, seens: seq<Seen>)
      reads `nextPort, `forwardAddrs, `services, `runEnv, `providers, providers.Values
      reads set t, i | t in services && 0 <= i < |services[t]| :: services[t][i].credentials
    {
      IsPlan(LayoutNow(), marshal, v, env, seens)
    }

    method SetVariable(name: string, value: string)
      modifies `runEnv
      ensures LayoutNow() == old(LayoutNow()).(env := old(runEnv)[name := value]) && ConfigNow() == old(ConfigNow())
    {
      hide ConfigNow, Entries;
      runEnv := runEnv[name := value];
    }

    /** Adds the rewritten listing to the environment of the program. */
    method ExportServices(ghost v: Visit, ghost env: Environment, ghost seens: seq<Seen>)
      requires Visited(v, env, seens, |v.keys|) && |seens| == |v.slots| && PassOf(v, seens).stopped.None?
      requires OutcomeOf(v.c, v.slots, PassOf(v, seens)) == Outcome.Planned
      modifies `runEnv
      ensures HasPlan(v, env, seens) && ConfigNow() == old(ConfigNow())
    {
      hide SeenOf, PassOf, FinalServices, Slots, Refs, Less, Visited, SetUp, Values, SameKinds, ConfigNow;
      VisitedValues(v, env, seens);
      VisitedFields(v, env, seens);
      SetVariable("VCAP_SERVICES", marshal(Values(services)));
    }

    /** What a pass over the fetched bindings leaves behind and how it ends. */
    ghost predicate PlannedOrNot(v: Visit, env: Environment, seens: seq<Seen>, outcome: Outcome)
      reads `nextPort, `forwardAddrs, `runEnv, `providers, `services, providers.Values, world
      reads set t, i | t in services && 0 <= i < |services[t]| :: services[t][i].credentials
      reads set i | 0 <= i < |v.refs| :: v.refs[i].service.credentials
    {
      && |seens| == |v.slots| && (PassOf(v, seens).stopped.Some? ==> PassOf(v, seens).stopped.value < |v.slots|)
      && outcome == OutcomeOf(v.c, v.slots, PassOf(v, seens))
      && if outcome == Outcome.Planned then HasPlan(v, env, seens) else Reached(v, env, seens)
    }

    /** However the pass ended, this is what it did outside. */
    lemma ReachedFiles(v: Visit, env: Environment, seens: seq<Seen>)
      requires |seens| == |v.slots| && (PassOf(v, seens).stopped.Some? ==> PassOf(v, seens).stopped.value < |v.slots|)
      requires Reached(v, env, seens)
      ensures v.before <= world.trace && SameKinds(ConfigNow(), v.c)
      ensures Configured(v, PassOf(v, seens), ConfigNow(), world.trace[|v.before|..])
    {
      hide SeenOf, PassOf, SetUp, PrunedTo;
    }

    method PlanFetched(ghost env: Environment)
      returns (outcome: Outcome, ghost v: Visit, ghost seens: seq<Seen>, ghost files: seq<Event>)
      requires Values(services) == env && AllApart(services)
      modifies world, `nextPort, `forwardAddrs, `runEnv, `services, CredsIn(services), providers.Values
      ensures From(v, names, old(FieldsNow()), old(services)) && world.trace == old(world.trace) + files
      ensures outcome != FetchFailed && PlannedOrNot(v, env, seens, outcome)
      ensures SameKinds(ConfigNow(), v.c) && Configured(v, PassOf(v, seens), ConfigNow(), files)
    {
      hide SeenOf, PassOf, Visited, FieldsNow, CredsIn, ValidTypes, HasPlan, AllApart, Entries, From, Configured;
      hide SameKinds;
      outcome, v, seens := PlanBindings(env);
      ReachedFiles(v, env, seens);
      files := world.trace[|v.before|..];
      if outcome == Outcome.Planned {
        ExportServices(v, env, seens);
      }
    }

    /** Fetches the bindings of the app and plans for the requested ones. On
        success the listing, the forwards, the ports and the environment are those
        of the pass; otherwise they are as far as the pass got. */
    method InitServiceBindings()
      returns (outcome: Outcome, ghost env: Environment, ghost v: Visit, ghost seens: seq<Seen>,
               ghost files: seq<Event>)
      modifies world, `nextPort, `forwardAddrs, `runEnv, `services, providers.Values
      ensures world.trace == old(world.trace) + [Did(GetAppEnv(appGUID, env), outcome != FetchFailed)] + files
      ensures outcome == FetchFailed ==>
        && nextPort == old(nextPort) && forwardAddrs == old(forwardAddrs)
        && runEnv == old(runEnv) && services == old(services) && files == [] && ConfigNow() == old(ConfigNow())
      ensures outcome != FetchFailed ==>
        && From(v, names, old(FieldsNow()), v.original) && PlannedOrNot(v, env, seens, outcome)
        && SameKinds(ConfigNow(), v.c) && Configured(v, PassOf(v, seens), ConfigNow(), files)
    {
      hide CredsIn, PlannedOrNot, AllApart, Entries, Configured, SameKinds;
      var fetched, ok := world.GetAppEnv(appGUID);
      env := fetched;
      if !ok {
        v, seens := Visit(ConfigNow(), names, nextPort, runEnv, forwardAddrs, [], map[], [], [], []), [];
        return FetchFailed, env, v, seens, [];
      }
      ghost var made;
      services, made := Decode(fetched);
      assert FieldsNow() == old(FieldsNow());
      CredsMade(services, made);
      outcome, v, seens, files := PlanFetched(env);
    }

    method RegisterServiceProvider(name: string, provider: Provider)
      modifies `providers
      ensures providers == old(providers)[name := provider]
    {
      providers := providers[name := provider];
    }

    // ----------------------------------------------- creating or finding the app

    /** Targets the org, then the space. */
    method Init() returns (ok: bool, ghost es: seq<Event>)
      modifies world
      ensures world.trace == old(world.trace) + es && StopsAtFailure(INIT_EVENTS, es, ok)
    {
      ok := world.GetOrgByName();
      es := [Did(GetOrg, ok)];
      if !ok {
        assert es == INIT_EVENTS[..0] + [INIT_EVENTS[0].(ok := false)];
        return;
      }
      ok := world.GetSpaceByName();
      es := es + [Did(GetSpace, ok)];
      assert !ok ==> es == INIT_EVENTS[..1] + [INIT_EVENTS[1].(ok := false)];
    }

    /** Creates the app and gets it running. The guid is kept even when a later step fails. */
    method StartNewApp() returns (ok: bool, ghost es: seq<Event>)
      modifies world, `appGUID
      ensures world.trace == old(world.trace) + es && StopsAtFailure(DeployEvents(appGUID), es, ok)
      ensures es[0].ok || appGUID == ""
    {
      appGUID, ok := world.CreateApp();
      ghost var plan := DeployEvents(appGUID);
      es := [Did(CreateApp(appGUID), ok)];
      if !ok {
        assert es == plan[..0] + [plan[0].(ok := false)];
        return;
      }
      ok := world.UploadStaticAppBits(appGUID);
      es := es + [Did(UploadBits(appGUID), ok)];
      if !ok {
        assert es == plan[..1] + [plan[1].(ok := false)];
        return;
      }
      ok := world.StartApp(appGUID);
      es := es + [Did(StartApp(appGUID), ok)];
      if !ok {
        assert es == plan[..2] + [plan[2].(ok := false)];
        return;
      }
      ok := world.PollForAppState(appGUID);
      es := es + [Did(PollStarted(appGUID), ok)];
      assert !ok ==> es == plan[..3] + [plan[3].(ok := false)];
    }

    /** Binds the app to every instance of this name, whatever order the map is visited in. */
    method BindName(name: string, instances: map<string, string>)
      returns (ok: bool, ghost guids: seq<string>, ghost es: seq<Event>)
      modifies world
      ensures world.trace == old(world.trace) + es
      ensures if ok then Covers(instances, name, guids) && BoundTo(es, appGUID, guids)
              else GivesUp(appGUID, instances, name, es)
    {
      hide MayGet, PortOf;
      var rest, bound := instances.Keys, false;
      guids, es := [], [];
      while rest != {}
        invariant rest <= instances.Keys && Named(instances, name, guids) && bound == (guids != [])
        invariant forall g | g in instances && instances[g] == name :: g in guids <==> g !in rest
        invariant BoundTo(es, appGUID, guids) && world.trace == old(world.trace) + es
      {
        var g :| g in rest;
        rest := rest - {g};
        if instances[g] == name {
          var usable;
          ghost var e;
          ok, usable, e := BindInstance(g);
          assert guids == (guids + [g])[..|guids|] && es == (es + [e])[..|es|];
          guids, es := guids + [g], es + [e];
          if !ok || !usable {
            return false, guids, es;
          }
          bound := true;
        }
      }
      ok := bound;
    }

    method BindInstance(instance: string) returns (ok: bool, usable: bool, ghost e: Event)
      modifies world
      ensures world.trace == old(world.trace) + [e] && Binds(e, appGUID, instance) && e.ok == ok
      ensures ok ==> if usable then Usable(e.call.creds) else Unusable(e.call.creds)
    {
      var creds;
      creds, ok := world.BindService(appGUID, instance);
      e := Did(BindService(appGUID, instance, creds), ok);
      usable := false;
      if ok {
        var c := new Credentials(creds);
        var host := c.Host();
        var port := c.Port();
        usable := host != "" && port != 0;
      }
    }

    /** Binds the app to everything requested, one name after another. */
    method BindServices() returns (ok: bool, ghost es: seq<Event>, ghost groups: seq<seq<string>>)
      modifies world
      ensures world.trace == old(world.trace) + es
      ensures es != [] && es[0].call.GetServiceInstances?
      ensures if es[0].ok then BindSteps(appGUID, es[0].call.instances, names, groups, es[1..], ok)
              else !ok && |es| == 1
    {
      hide Covers, GivesUp, Usable, BoundTo, Concat, BindSteps;
      var instances;
      instances, ok := world.GetServiceInstances();
      ghost var head := Did(GetServiceInstances(instances), ok);
      es, groups := [head], [];
      if !ok {
        return;
      }
      ghost var bound: seq<Event> := [];
      NothingBound(appGUID);
      for k := 0 to |names|
        invariant |groups| == k && es == [head] + bound && world.trace == old(world.trace) + es
        invariant CoversAll(instances, names, groups) && BoundTo(bound, appGUID, Concat(groups))
      {
        ghost var guids, more;
        ok, guids, more := BindName(names[k], instances);
        es := [head] + (bound + more);
        if !ok {
          BindStops(appGUID, instances, names, groups, bound, more, false);
          assert es[1..] == bound + more;
          return;
        }
        BoundMore(appGUID, bound, more, groups, guids);
        groups, bound := groups + [guids], bound + more;
      }
      ok := true;
      BindStops(appGUID, instances, names, groups, bound, [], true);
      assert es[1..] == bound + [];
    }

    /** Creates and starts a new app, then binds it. */
    method DeployApp()
      returns (ok: bool, ghost es: seq<Event>, ghost binding: seq<Event>, ghost groups: seq<seq<string>>)
      modifies world, `appGUID
      ensures world.trace == old(world.trace) + es
      ensures Deployed(appGUID, names, es, binding, groups, ok)
    {
      hide BindSteps;
      ok, es := StartNewApp();
      binding, groups := [], [];
      if ok {
        ok, binding, groups := BindServices();
        es := es + binding;
        assert es[..4] == DeployEvents(appGUID) && es[4..] == binding;
      }
    }

    /** Looks up an existing app and checks that it is bound to everything requested. */
    method PrepareForExistingApp() returns (ok: bool, ghost es: seq<Event>)
      modifies world, `appGUID
      ensures world.trace == old(world.trace) + es && Borrowed(names, es, ok)
      ensures appGUID == if es[0].ok then es[0].call.guid else old(appGUID)
    {
      hide MayLack, HasBinding;
      var guid;
      guid, ok := world.GetAppByName();
      es := [Did(GetApp(guid), ok)];
      if !ok {
        return;
      }
      appGUID := guid;
      var instances, bound;
      instances, ok := world.GetServiceInstances();
      es := es + [Did(GetServiceInstances(instances), ok)];
      if !ok {
        return;
      }
      bound, ok := world.GetServiceBindings(appGUID);
      es := es + [Did(GetServiceBindings(appGUID, bound), ok)];
      if !ok {
        return;
      }
      for k := 0 to |names|
        invariant world.trace == old(world.trace) + es && appGUID == guid
        invariant forall i | 0 <= i < k :: HasBinding(instances, bound, names[i])
      {
        var found := FindBinding(names[k], instances, bound);
        if !found {
          return false, es;
        }
      }
    }

    /** The first instance of this name that the visit meets has to be bound. */
    method FindBinding(name: string, instances: map<string, string>, bound: set<string>) returns (found: bool)
      ensures if found then HasBinding(instances, bound, name) else MayLack(instances, bound, name)
    {
      var rest, guid := instances.Keys, "";
      while rest != {}
        invariant rest <= instances.Keys && guid == ""
        invariant forall g | g in instances && g !in rest :: instances[g] != name
      {
        var g :| g in rest;
        rest := rest - {g};
        if instances[g] == name {
          guid := g;
          break;
        }
      }
      found := guid != "" && guid in bound;
    }

    // ------------------------------------------------------- opening the tunnels

    /** Opens the SSH forwards and waits for each of them. */
    method StartSSHTunnels() returns (ok: bool, ghost es: seq<Event>)
      modifies world, `tunnel
      ensures world.trace == old(world.trace) + es
      ensures StopsAtFailure(ListenEvents(forwardAddrs) + WaitEvents(forwardAddrs), es, ok)
      ensures tunnel != null && fresh(tunnel) && fresh(tunnel.listeners)
      ensures Serve(tunnel.listeners, SSHRelays(forwardAddrs))
      ensures ok ==> tunnel.running && |tunnel.listeners| == |forwardAddrs|
      ensures HasListeners(tunnel, forwardAddrs, es)
    {
      hide Addr, ListenEvents, WaitEvents, SSHRelays, StopsAtFailure, Opened;
      var t := new SSHTunnel(forwardAddrs);
      tunnel := t;
      ghost var added, before, listens, waits := [], world.trace, ListenEvents(forwardAddrs), WaitEvents(forwardAddrs);
      ok, added := t.Start(world);
      es := world.trace[|before|..];
      ListensAllOk(forwardAddrs);
      StopsShort(listens, es, ok);
      if !ok {
        StopsBefore(listens, waits, es);
        return;
      }
      ghost var waited: seq<Event>;
      ok, waited := AwaitForwards(forwardAddrs);
      assert es == listens by { StopsFully(listens, es); }
      StopsAfter(listens, waits, waited, ok);
      WaitedOnly(forwardAddrs, waited, ok);
      OpenedWaits(listens, waited);
      es := es + waited;
    }

    method AwaitForwards(forwards: seq<ForwardAddrs>) returns (ok: bool, ghost es: seq<Event>)
      modifies world
      ensures world.trace == old(world.trace) + es && StopsAtFailure(WaitEvents(forwards), es, ok)
    {
      hide Addr;
      es := [];
      ghost var plan := WaitEvents(forwards);
      for i := 0 to |forwards|
        invariant es == plan[..i] && world.trace == old(world.trace) + es
      {
        ok := world.WaitForConnection(forwards[i].LocalAddress());
        es := es + [Did(WaitFor(forwards[i].LocalAddress()), ok)];
        if !ok {
          assert es == plan[..i] + [plan[i].(ok := false)];
          return;
        }
      }
      ok := true;
    }

    /** Opens a TLS tunnel in front of each forward that has a TLS port. Those
        opened are remembered even when a later one fails. */
    method StartTLSTunnels() returns (ok: bool, ghost es: seq<Event>, ghost added: seq<TLSTunnel>)
      modifies world, `tlsTunnels
      ensures world.trace == old(world.trace) + es && StopsAtFailure(TLSEvents(forwardAddrs), es, ok)
      ensures tlsTunnels == old(tlsTunnels) + added && fresh(added) && Secure(added, TLSRelays(forwardAddrs))
      ensures Opened(es) == Addresses(TLSRelaysOf(added)) && (forall t | t in added :: Fronts(t, forwardAddrs))
      ensures ok ==> |added| == |TLSRelays(forwardAddrs)|
    {
      hide Addr, Opened, TLSPair, TLSEvents, TLSRelays, TLSRelay;
      es, added := [], [];
      NoTLSYet(forwardAddrs);
      for i := 0 to |forwardAddrs|
        invariant world.trace == old(world.trace) + es && es == TLSEvents(forwardAddrs[..i])
        invariant tlsTunnels == old(tlsTunnels) + added && fresh(added) && Opened(es) == Addresses(TLSRelaysOf(added))
        invariant forall t | t in added :: Fronts(t, forwardAddrs)
        invariant Secure(added, TLSRelays(forwardAddrs[..i])) && |added| == |TLSRelays(forwardAddrs[..i])|
      {
        TLSEventsNext(forwardAddrs, i);
        if forwardAddrs[i].tlsTunnelPort != 0 {
          ghost var more, t;
          ok, more, t := StartTLSTunnel(forwardAddrs[i]);
          TLSStep(forwardAddrs, i, es, more, ok);
          OpenedTwo(es, more);
          es := es + more;
          added := added + if t == null then [] else [t];
          if !ok {
            TLSPrefix(forwardAddrs, i);
            TLSPrefix(forwardAddrs, i + 1);
            return;
          }
        }
      }
      assert forwardAddrs[..|forwardAddrs|] == forwardAddrs;
      ok := true;
    }

    method StartTLSTunnel(fwd: ForwardAddrs) returns (ok: bool, ghost es: seq<Event>, ghost t: TLSTunnel?)
      modifies world, `tlsTunnels
      ensures world.trace == old(world.trace) + es && StopsAtFailure(TLSPair(fwd), es, ok)
      ensures 1 <= |es| <= 2 && es[0] == Did(Listen(TLSRelay(fwd).listen), t != null)
      ensures (|es| == 2 ==> es[1].call.WaitFor?)
      ensures if t == null then !ok && |es| == 1 && tlsTunnels == old(tlsTunnels)
              else fresh(t) && t.hasListener && t.relay == TLSRelay(fwd) && t.actualAddr == fwd.remoteAddr
                   && tlsTunnels == old(tlsTunnels) + [t]
    {
      hide Addr;
      ghost var plan := TLSPair(fwd);
      var made := new TLSTunnel(fwd.TLSTunnelAddress(), fwd.LocalAddress(), fwd.remoteAddr);
      ok := made.Start(world);
      es, t := [Did(Listen(fwd.TLSTunnelAddress()), ok)], null;
      if !ok {
        assert es == plan[..0] + [plan[0].(ok := false)];
        return;
      }
      tlsTunnels, t := tlsTunnels + [made], made;
      ok := world.WaitForConnection(fwd.TLSTunnelAddress());
      es := es + [Did(WaitFor(fwd.TLSTunnelAddress()), ok)];
      assert !ok ==> es == plan[..1] + [plan[1].(ok := false)];
    }

    /** The listeners the two kinds of tunnel hold. */
    ghost function LiveNet(): Net
      reads `tunnel, `tlsTunnels, tunnel
    {
      Net(if tunnel == null then [] else RelaysOf(tunnel.listeners), TLSRelaysOf(tlsTunnels))
    }

    /** Every listener is open. */
    ghost predicate AllOpen()
      reads `tunnel, `tlsTunnels, tunnel, tlsTunnels, SSHListeners()
    {
      && tunnel != null && tunnel.running && (forall l | l in tunnel.listeners :: l.open)
      && forall t | t in tlsTunnels :: t.hasListener
    }

    /** Both kinds of tunnel for the planned forwards. */
    method OpenTunnels() returns (ok: bool, ghost es: seq<Event>, ghost secure: seq<Event>)
      requires tlsTunnels == []
      modifies world, `tunnel, `tlsTunnels
      ensures world.trace == old(world.trace) + es + secure
      ensures StopsAtFailure(ListenEvents(forwardAddrs) + WaitEvents(forwardAddrs), es, AllOk(es))
      ensures if AllOk(es) then StopsAtFailure(TLSEvents(forwardAddrs), secure, ok) else !ok && secure == []
      ensures Opened(secure) == Addresses(TLSRelaysOf(tlsTunnels)) && (forall t | t in tlsTunnels :: t.hasListener)
      ensures tunnel != null && fresh(tunnel) && fresh(tunnel.listeners) && HasListeners(tunnel, forwardAddrs, es)
      ensures forall t | t in tlsTunnels :: Fronts(t, forwardAddrs)
      ensures ok ==> AllOpen() && LiveNet() == NetOf(forwardAddrs)
    {
      hide Addr, TLSEvents, TLSRelays, ListenEvents, WaitEvents, StopsAtFailure, Opened;
      secure := [];
      NoTLSYet(forwardAddrs);
      ok, es := StartSSHTunnels();
      ListenAndWaitAllOk(forwardAddrs);
      StopsUnlessAllOk(ListenEvents(forwardAddrs) + WaitEvents(forwardAddrs), es, ok);
      if ok {
        ghost var added;
        ok, secure, added := StartTLSTunnels();
        assert tlsTunnels == added;
      }
    }

    /** The calls and tunnels of `OpenTunnels`. */
    ghost predicate TunnelsOpened(es: seq<Event>, secure: seq<Event>, ok: bool)
      reads `forwardAddrs, `tunnel, `tlsTunnels, tunnel, tlsTunnels, SSHListeners()
    {
      && StopsAtFailure(ListenEvents(forwardAddrs) + WaitEvents(forwardAddrs), es, AllOk(es))
      && (if AllOk(es) then StopsAtFailure(TLSEvents(forwardAddrs), secure, ok) else !ok && secure == [])
      && Opened(secure) == Addresses(TLSRelaysOf(tlsTunnels)) && (forall t | t in tlsTunnels :: t.hasListener)
      && tunnel != null && HasListeners(tunnel, forwardAddrs, es)
      && (forall t | t in tlsTunnels :: Fronts(t, forwardAddrs))
      && (ok ==> AllOpen() && LiveNet() == NetOf(forwardAddrs))
    }

    /** `OpenTunnels` leaves the plan as it is. */
    method OpenPlanned(ghost v: Visit, ghost env: Environment, ghost seens: seq<Seen>)
      returns (ok: bool, ghost es: seq<Event>, ghost secure: seq<Event>)
      requires tlsTunnels == [] && HasPlan(v, env, seens)
      modifies world, `tunnel, `tlsTunnels
      ensures world.trace == old(world.trace) + es + secure && TunnelsOpened(es, secure, ok) && HasPlan(v, env, seens)
      ensures ConfigNow() == old(ConfigNow())
      ensures tunnel != null && fresh(tunnel) && fresh(tunnel.listeners)
    {
      hide Addr, AllOpen, LiveNet, NetOf, StopsAtFailure, Opened, IsPlan, ConfigNow, Entries;
      ghost var l := LayoutNow();
      ok, es, secure := OpenTunnels();
      assert LayoutNow() == l;
    }

    /** Plans, then opens the tunnels. On success the net of open listeners is
        the one planned for. */
    method SetupTunnels()
      returns (ok: bool, outcome: Outcome, ghost env: Environment, ghost files: seq<Event>, ghost setup: seq<Event>,
               ghost secure: seq<Event>, ghost v: Visit, ghost seens: seq<Seen>)
      requires tlsTunnels == []
      modifies world, `nextPort, `forwardAddrs, `runEnv, `services, providers.Values, `tunnel, `tlsTunnels
      ensures var fetch := [Did(GetAppEnv(appGUID, env), outcome != FetchFailed)];
        world.trace == old(world.trace) + fetch + files + setup + secure
      ensures if outcome == FetchFailed then files == [] && ConfigNow() == old(ConfigNow())
              else From(v, names, old(FieldsNow()), v.original) && |seens| == |v.slots|
                   && SameKinds(ConfigNow(), v.c) && Configured(v, PassOf(v, seens), ConfigNow(), files)
      ensures if outcome == Outcome.Planned then HasPlan(v, env, seens) && TunnelsOpened(setup, secure, ok)
              else !ok && setup == [] && secure == [] && tlsTunnels == [] && tunnel == old(tunnel)
      ensures tunnel == old(tunnel) || (tunnel != null && fresh(tunnel) && fresh(tunnel.listeners))
    {
      hide HasPlan, Visited, From, FieldsNow, OutcomeOf, SetUp, Opened, StopsAtFailure, TunnelsOpened, Configured;
      setup, secure, ok := [], [], false;
      outcome, env, v, seens, files := InitServiceBindings();
      if outcome == Outcome.Planned {
        ok, setup, secure := OpenPlanned(v, env, seens);
      }
    }

    // -------------------------------------------------------- running the program

    /** What the provider that knows the program adds to its arguments, whatever
        order the providers are visited in. */
    method GetProgramSpecificArgs() returns (args: seq<string>)
      ensures MayGetArgs(ConfigNow(), Values(services), args)
    {
      hide KnownClients, MayAddArgs, MayGet;
      var rest := providers.Keys;
      while rest != {}
        invariant rest <= providers.Keys
        invariant forall t | t in providers && t !in rest :: program !in KnownClients(providers[t].kind)
      {
        var t :| t in rest;
        rest := rest - {t};
        if program in KnownClients(providers[t].kind) {
          args := providers[t].AdditionalProgramArgs(if t in services then services[t] else []);
          assert t in ValidTypes(ConfigNow());
          return;
        }
      }
      args := [];
    }

    /** Runs the program with the extra arguments in front of its own. */
    method RunCommand() returns (ok: bool, ghost extra: seq<string>)
      requires runArgs != []
      modifies world
      ensures LayoutNow() == old(LayoutNow()) && MayGetArgs(LayoutNow().config, LayoutNow().services, extra)
      ensures world.trace == old(world.trace) + [Did(RunProgram(program, extra + runArgs[1..], LayoutNow().env), ok)]
    {
      hide MayGetArgs, ConfigNow, Entries;
      var args := GetProgramSpecificArgs();
      extra := args;
      ok := Exec(args + runArgs[1..]);
    }

    /** Starts the program in the planned environment and waits for it. */
    method Exec(args: seq<string>) returns (ok: bool)
      modifies world
      ensures LayoutNow() == old(LayoutNow())
      ensures world.trace == old(world.trace) + [Did(RunProgram(program, args, runEnv), ok)]
    {
      hide ConfigNow, Entries;
      ok := world.Exec(program, args, runEnv);
    }

    // ---------------------------------------------------------------- tearing down

    /** Destroys the app; if that fails, refreshes the token and tries once more. */
    method DestroyOwnApp() returns (ok: bool, ghost es: seq<Event>)
      modifies world
      ensures world.trace == old(world.trace) + es && DestroyTail(appGUID, es, ok)
    {
      ok := world.DestroyApp(appGUID);
      es := [Did(DestroyApp(appGUID), ok)];
      if !ok {
        ok := world.RefreshAccessToken();
        es := es + [Did(RefreshToken, ok)];
        if ok {
          ok := world.DestroyApp(appGUID);
          es := es + [Did(DestroyApp(appGUID), ok)];
        }
      }
    }

    method StopTLSTunnels() returns (errors: nat, ghost es: seq<Event>)
      requires forall t | t in tlsTunnels :: t.hasListener
      modifies world
      ensures world.trace == old(world.trace) + es && errors == Failures(es)
      ensures |es| == |tlsTunnels|
      ensures forall i | 0 <= i < |es| :: es[i].call == CloseTLS(Addresses(TLSRelaysOf(tlsTunnels))[i])
    {
      errors, es := 0, [];
      for i := 0 to |tlsTunnels|
        invariant |es| == i && forall j | 0 <= j < i :: es[j].call == CloseTLS(Addresses(TLSRelaysOf(tlsTunnels))[j])
        invariant world.trace == old(world.trace) + es && errors == Failures(es)
      {
        var ok := tlsTunnels[i].Stop(world);
        FailuresNext(es, Did(CloseTLS(tlsTunnels[i].relay.listen), ok));
        es := es + [Did(CloseTLS(tlsTunnels[i].relay.listen), ok)];
        if !ok { errors := errors + 1; }
      }
    }

    /** All providers, in any order, going on after each failure. */
    method TeardownProviders() returns (errors: nat, ghost es: seq<Event>)
      modifies world
      ensures world.trace == old(world.trace) + es && errors == Failures(es)
      ensures EachOnce(es, DirsIn(ConfigNow()))
    {
      hide EachOnce, Failures, ConfigNow, DirsIn;
      errors, es := 0, [];
      ghost var before, dirs := world.trace, map[];
      NothingYet();
      NoDirsLeft();
      var rest := providers.Keys;
      while rest != {}
        invariant rest <= providers.Keys && dirs == DirsIn(ConfigNow()) - rest && EachOnce(es, dirs)
        invariant world.trace == before + es && errors == Failures(es)
      {
        var t :| t in rest;
        var ok := providers[t].Teardown(world);
        NextDir(dirs, rest, t);
        if providers[t].kind == MySQL && providers[t].workDir != "" {
          ghost var e := Did(RemoveAll(providers[t].workDir), ok);
          FailuresNext(es, e);
          EachOnceMore(es, dirs, t, providers[t].workDir, ok);
          Regroup(before, es, [e]);
          es := es + [e];
          dirs := dirs[t := providers[t].workDir];
        }
        rest := rest - {t};
        if !ok { errors := errors + 1; }
      }
    }

    lemma NoDirsLeft()
      ensures DirsIn(ConfigNow()) - providers.Keys == map[] && DirsIn(ConfigNow()) - {} == DirsIn(ConfigNow())
    {
    }

    lemma NextDir(dirs: map<string, string>, rest: set<string>, t: string)
      requires t in rest && rest <= providers.Keys && dirs == DirsIn(ConfigNow()) - rest
      ensures t !in dirs
      ensures DirsIn(ConfigNow()) - (rest - {t}) ==
        if providers[t].kind == MySQL && providers[t].workDir != "" then dirs[t := providers[t].workDir] else dirs
    {
    }

    ghost function SSHListeners(): seq<Listener>
      reads `tunnel, tunnel
    {
      if tunnel == null then [] else tunnel.listeners
    }

    method StopSSHTunnel() returns (ghost es: seq<Event>)
      modifies world, tunnel, SSHListeners()
      ensures world.trace == old(world.trace) + es && es == (if tunnel == null then [] else [Did(StopSSH, true)])
      ensures tunnel != null ==> !tunnel.running && tunnel.listeners == old(tunnel.listeners)
      ensures tunnel != null ==> forall l | l in tunnel.listeners :: l.open == (old(l.open) && !old(tunnel.running))
    {
      es := [];
      if tunnel != null {
        tunnel.Stop();
        es := [Did(StopSSH, true)];
        world.Note(es[0]);
      }
    }

    /** Stops and removes everything, going on after each failure; the result is
        the number of errors collected. */
    method Teardown() returns (errors: nat, ghost e: Ending)
      requires forall t | t in tlsTunnels :: t.hasListener
      modifies world, tunnel, SSHListeners()
      ensures world.trace == old(world.trace) + EventsOf(e) && errors == ErrorsOf(e)
      ensures FullEnding(e, Addresses(TLSRelaysOf(tlsTunnels)), tunnel != null, DirsIn(ConfigNow()),
                         deleteApp && appGUID != "", appGUID)
      ensures tunnel != null ==> !tunnel.running && tunnel.listeners == old(tunnel.listeners)
      ensures tunnel != null ==> forall l | l in tunnel.listeners :: l.open == (old(l.open) && !old(tunnel.running))
    {
      hide DestroyTail, EachOnce, Failures, Addresses, DirsIn, ConfigNow, EventsOf;
      ghost var tls, ssh, sps, app;
      errors, tls := StopTLSTunnels();
      ssh := StopSSHTunnel();
      var more;
      more, sps := TeardownProviders();
      errors := errors + more;
      var destroyed := true;
      app := [];
      if deleteApp && appGUID != "" {
        destroyed, app := DestroyOwnApp();
        if !destroyed { errors := errors + 1; }
      }
      e := Ending(tls, ssh, sps, app, destroyed);
      EventsJoined(old(world.trace), e);
      NoFailuresIff(ssh);
    }
  }
}
