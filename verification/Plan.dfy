/** What `initServiceBindings` plans, as a function of the bindings in the order
    they are visited and of what the credential lookups answered. */
module Plan {
  import opened ServiceCredentials
  import opened Outside
  import opened Services

  /** ssh/tunnel.go:17-45. */
  datatype ForwardAddrs = ForwardAddrs(localPort: int, tlsTunnelPort: int, remoteAddr: string) {

    function LocalAddress(): string {
      Addr("localhost", localPort)
    }

    function TLSTunnelAddress(): string {
      Addr("localhost", tlsTunnelPort)
    }

    function ConnectPort(): int {
      if tlsTunnelPort != 0 then tlsTunnelPort else localPort
    }
  }

  /** One binding together with the service type it is listed under. */
  datatype Slot = Slot(serviceType: string, entry: Entry)

  function Block(serviceType: string, entries: seq<Entry>): (b: seq<Slot>)
    ensures |b| == |entries|
  {
    seq(|entries|, i requires 0 <= i < |entries| => Slot(serviceType, entries[i]))
  }

  /** The bindings in visiting order: by service type, then by list position. */
  function Slots(keys: seq<string>, env: Environment): seq<Slot>
    requires forall k | k in keys :: k in env
  {
    if keys == [] then []
    else Slots(keys[..|keys| - 1], env) + Block(keys[|keys| - 1], env[keys[|keys| - 1]])
  }

  /** What stays fixed during the pass. */
  datatype Config = Config(program: string, providers: map<string, ProviderState>)

  /** What the credential lookups answered while one binding was handled: the
      host used for the forward, whether TLS is on, the host `SetAddress` looked
      for, and what `InitEnv` set. */
  datatype Seen = Seen(remoteHost: string, tls: bool, oldHost: string, writes: map<string, string>)

  /** The state of the pass: names still waiting, the slots kept, their forwards
      and rewritten credentials, the next free port, the child environment, the
      slot the program was set up for, and the slot of unknown type that ended it. */
  datatype Pass = Pass(
    waiting: set<string>,
    kept: seq<nat>,
    forwards: seq<ForwardAddrs>,
    after: map<nat, Bindings>,
    nextPort: int,
    env: map<string, string>,
    client: Option<nat>,
    stopped: Option<nat>)

  function Start(names: seq<string>, port: int, env: map<string, string>): Pass {
    Pass(set n | n in names, [], [], map[], port, env, None, None)
  }

  predicate WantsTLS(c: Config, slot: Slot, seen: Seen)
    requires slot.serviceType in c.providers
  {
    slot.serviceType == "redis" && seen.tls && c.program in NonTLSClients(c.providers[slot.serviceType].kind)
  }

  function ForwardOf(c: Config, port: int, slot: Slot, seen: Seen): ForwardAddrs
    requires slot.serviceType in c.providers
  {
    ForwardAddrs(port, if WantsTLS(c, slot, seen) then port + 1 else 0,
                 Addr(seen.remoteHost, PortOf(slot.entry.creds)))
  }

  function CredsAfter(slot: Slot, seen: Seen, fwd: ForwardAddrs): Bindings {
    Redirected(slot.entry.creds, seen.oldHost, fwd.ConnectPort())
  }

  predicate IsClientOf(c: Config, serviceType: string)
    requires serviceType in c.providers
  {
    c.program in KnownClients(c.providers[serviceType].kind)
  }

  /** One binding handled: kept, skipped, or the end of the pass. */
  function Step(c: Config, p: Pass, i: nat, slot: Slot, seen: Seen): Pass {
    if p.stopped.Some? || slot.entry.instanceName !in p.waiting then p
    else
      var q := p.(waiting := p.waiting - {slot.entry.instanceName});
      if slot.serviceType !in c.providers then q.(stopped := Some(i))
      else
        var fwd := ForwardOf(c, p.nextPort, slot, seen);
        var q := q.(
          kept := p.kept + [i],
          forwards := p.forwards + [fwd],
          after := p.after[i := CredsAfter(slot, seen, fwd)],
          nextPort := p.nextPort + (if WantsTLS(c, slot, seen) then 2 else 1));
        if p.client.None? && IsClientOf(c, slot.serviceType)
        then q.(env := p.env + seen.writes, client := Some(i))
        else q
  }

  /** The pass after the first `n` bindings. */
  function PassAfter(c: Config, start: Pass, slots: seq<Slot>, seens: seq<Seen>, n: nat): Pass
    requires n <= |slots| && n <= |seens|
  {
    if n == 0 then start
    else Step(c, PassAfter(c, start, slots, seens, n - 1), n - 1, slots[n - 1], seens[n - 1])
  }

  /** Whether `Step` keeps the binding. */
  predicate Keeps(c: Config, p: Pass, slot: Slot) {
    p.stopped.None? && slot.entry.instanceName in p.waiting && slot.serviceType in c.providers
  }

  /** `seen` is something the lookups can answer for this binding. */
  ghost predicate MaySee(c: Config, p: Pass, slot: Slot, seen: Seen) {
    Keeps(c, p, slot) ==>
      var provider := c.providers[slot.serviceType];
      && MayGet(slot.entry.creds, HOST_KEYS, seen.remoteHost)
      && MayGet(slot.entry.creds, HOST_KEYS, seen.oldHost)
      && (slot.serviceType == "redis" ==> MayBeTLSService(provider.kind, slot.entry.creds, seen.tls))
      && (p.client.None? && IsClientOf(c, slot.serviceType) ==>
            MayInitEnv(provider, CredsAfter(slot, seen, ForwardOf(c, p.nextPort, slot, seen)), seen.writes))
  }

  ghost predicate AllSeen(c: Config, start: Pass, slots: seq<Slot>, seens: seq<Seen>, n: nat)
    requires n <= |slots| && n <= |seens|
  {
    n == 0 || (AllSeen(c, start, slots, seens, n - 1)
               && MaySee(c, PassAfter(c, start, slots, seens, n - 1), slots[n - 1], seens[n - 1]))
  }

  /** How `initServiceBindings` ends. */
  datatype Outcome =
    | Planned
    | FetchFailed
    | UnknownType(instanceName: string, serviceType: string)
    | MissingBindings(names: set<string>)
    | UnknownProgram(program: string)
    | WrongServiceType(program: string, expected: set<string>)

  function ValidTypes(c: Config): set<string> {
    set t | t in c.providers && IsClientOf(c, t)
  }

  function OutcomeOf(c: Config, slots: seq<Slot>, p: Pass): Outcome
    requires p.stopped.Some? ==> p.stopped.value < |slots|
  {
    if p.stopped.Some? then
      var slot := slots[p.stopped.value];
      UnknownType(slot.entry.instanceName, slot.serviceType)
    else if p.waiting != {} then MissingBindings(p.waiting)
    else if c.program != "" && p.client.None? then
      if ValidTypes(c) == {} then UnknownProgram(c.program) else WrongServiceType(c.program, ValidTypes(c))
    else Planned
  }

  predicate InRange(slots: seq<Slot>, kept: seq<nat>) {
    forall j | 0 <= j < |kept| :: kept[j] < |slots|
  }

  /** The kept slots of one service type, in order. */
  function KeptOf(slots: seq<Slot>, kept: seq<nat>, serviceType: string): (ks: seq<nat>)
    requires InRange(slots, kept)
    ensures forall j | 0 <= j < |ks| :: ks[j] in kept && ks[j] < |slots| && slots[ks[j]].serviceType == serviceType
  {
    if kept == [] then []
    else
      var rest := KeptOf(slots, kept[..|kept| - 1], serviceType);
      var last := kept[|kept| - 1];
      if slots[last].serviceType == serviceType then rest + [last] else rest
  }

  /** Every kept slot exists and has rewritten credentials. */
  predicate Keepable(slots: seq<Slot>, p: Pass, kept: seq<nat>) {
    forall j | 0 <= j < |kept| :: kept[j] < |slots| && kept[j] in p.after
  }

  function KeptEntries(slots: seq<Slot>, p: Pass, kept: seq<nat>): seq<Entry>
    requires Keepable(slots, p, kept)
  {
    seq(|kept|, j requires 0 <= j < |kept| => slots[kept[j]].entry.(creds := p.after[kept[j]]))
  }

  function TypesOf(slots: seq<Slot>, kept: seq<nat>): set<string>
    requires InRange(slots, kept)
  {
    set j | 0 <= j < |kept| :: slots[kept[j]].serviceType
  }

  /** The bindings left in VCAP_SERVICES: per service type the kept ones, with
      their rewritten credentials, and no entry where none was kept. */
  function FinalServices(slots: seq<Slot>, p: Pass): Environment
    requires Keepable(slots, p, p.kept)
  {
    map t | t in TypesOf(slots, p.kept) :: KeptEntries(slots, p, KeptOf(slots, p.kept, t))
  }
}
