/** The two kinds of tunnel as their owner uses them: ssh/tunnel.go and
    tls/tunnel.go, each call taken as a whole. */
module Tunnels {
  import opened GoStrings
  import opened ServiceCredentials
  import opened Outside
  import opened Plan
  import opened Routing

  /** What a series of calls that stops at its first failure records. */
  ghost predicate StopsAtFailure(plan: seq<Event>, done: seq<Event>, ok: bool) {
    if ok then done == plan
    else exists k | 0 <= k < |plan| :: done == plan[..k] + [plan[k].(ok := false)]
  }

  lemma StopsFully(plan: seq<Event>, done: seq<Event>)
    requires StopsAtFailure(plan, done, true)
    ensures done == plan
  {
  }

  /** Such a series goes through its whole plan exactly if it succeeds. */
  lemma StopsShort(plan: seq<Event>, done: seq<Event>, ok: bool)
    requires StopsAtFailure(plan, done, ok) && AllOk(plan)
    ensures ok <==> plan <= done
  {
    StopsUnlessAllOk(plan, done, ok);
  }

  lemma StopsBefore(first: seq<Event>, second: seq<Event>, done: seq<Event>)
    requires StopsAtFailure(first, done, false)
    ensures StopsAtFailure(first + second, done, false)
  {
    var k :| 0 <= k < |first| && done == first[..k] + [first[k].(ok := false)];
    assert (first + second)[..k] == first[..k] && (first + second)[k] == first[k];
  }

  lemma StopsAfter(first: seq<Event>, second: seq<Event>, done: seq<Event>, ok: bool)
    requires StopsAtFailure(second, done, ok)
    ensures StopsAtFailure(first + second, first + done, ok)
  {
    if !ok {
      var k :| 0 <= k < |second| && done == second[..k] + [second[k].(ok := false)];
      var all, at := first + second, |first| + k;
      assert all[..at] == first + second[..k] && all[at] == second[k];
      assert first + done == all[..at] + [all[at].(ok := false)];
    }
  }

  predicate AllOk(es: seq<Event>) {
    forall i | 0 <= i < |es| :: es[i].ok
  }

  /** Such a series succeeds exactly when none of its calls failed. */
  lemma StopsUnlessAllOk(plan: seq<Event>, done: seq<Event>, ok: bool)
    requires StopsAtFailure(plan, done, ok) && AllOk(plan)
    ensures ok == AllOk(done)
  {
    if !ok {
      var k :| 0 <= k < |plan| && done == plan[..k] + [plan[k].(ok := false)];
      assert !done[k].ok;
    }
  }

  function ListenEvents(fs: seq<ForwardAddrs>): (es: seq<Event>)
    ensures |es| == |fs|
  {
    seq(|fs|, j requires 0 <= j < |fs| => Did(Listen(fs[j].LocalAddress()), true))
  }

  function WaitEvents(fs: seq<ForwardAddrs>): (es: seq<Event>)
    ensures |es| == |fs|
  {
    seq(|fs|, j requires 0 <= j < |fs| => Did(WaitFor(fs[j].LocalAddress()), true))
  }

  function TLSPair(fwd: ForwardAddrs): (es: seq<Event>)
    ensures |es| == 2
  {
    [Did(Listen(fwd.TLSTunnelAddress()), true), Did(WaitFor(fwd.TLSTunnelAddress()), true)]
  }

  lemma WaitedOnly(fs: seq<ForwardAddrs>, done: seq<Event>, ok: bool)
    requires StopsAtFailure(WaitEvents(fs), done, ok)
    ensures forall i | 0 <= i < |done| :: !done[i].call.Listen?
  {
    hide Addr;
  }

  lemma ListensAllOk(fs: seq<ForwardAddrs>)
    ensures AllOk(ListenEvents(fs))
  {
    hide Addr;
  }

  /** For each forward with a TLS port, open it and wait for it. */
  function TLSEvents(fs: seq<ForwardAddrs>): seq<Event> {
    if fs == [] then []
    else TLSEvents(fs[..|fs| - 1]) + (if fs[|fs| - 1].tlsTunnelPort != 0 then TLSPair(fs[|fs| - 1]) else [])
  }

  lemma {:induction false} TLSEventsAllOk(fs: seq<ForwardAddrs>)
    ensures AllOk(TLSEvents(fs))
  {
    if fs != [] { TLSEventsAllOk(fs[..|fs| - 1]); }
  }

  /** The events and relays of the first forwards come first. */
  lemma {:induction false} TLSPrefix(fs: seq<ForwardAddrs>, i: nat)
    requires i <= |fs|
    ensures TLSEvents(fs[..i]) <= TLSEvents(fs) && TLSRelays(fs[..i]) <= TLSRelays(fs)
    decreases |fs|
  {
    if i == |fs| {
      assert fs[..i] == fs;
    } else {
      TLSPrefix(fs[..|fs| - 1], i);
      assert fs[..|fs| - 1][..i] == fs[..i];
    }
  }

  /** The addresses opened by these calls, in order. */
  function Opened(es: seq<Event>): seq<string> {
    if es == [] then []
    else
      var last := es[|es| - 1];
      Opened(es[..|es| - 1]) + (if last.ok && last.call.Listen? then [last.call.addr] else [])
  }

  lemma NoneOpened()
    ensures Opened([]) == [] && Addresses([]) == []
  {
  }

  lemma OpenedMore(es: seq<Event>, e: Event)
    ensures Opened(es + [e]) == Opened(es) + (if e.ok && e.call.Listen? then [e.call.addr] else [])
  {
    assert (es + [e])[..|es|] == es;
  }

  lemma {:induction false} OpenedWaits(es: seq<Event>, waits: seq<Event>)
    requires forall i | 0 <= i < |waits| :: !waits[i].call.Listen?
    ensures Opened(es + waits) == Opened(es)
  {
    hide Opened;
    if waits == [] {
      assert es + waits == es;
    } else {
      var init, last := waits[..|waits| - 1], waits[|waits| - 1];
      OpenedWaits(es, init);
      OpenedMore(es + init, last);
      assert es + waits == es + init + [last];
    }
  }

  /** The pair of calls for one forward continues those for the forwards before it. */
  lemma TLSStep(fs: seq<ForwardAddrs>, i: nat, done: seq<Event>, more: seq<Event>, ok: bool)
    requires i < |fs| && fs[i].tlsTunnelPort != 0 && done == TLSEvents(fs[..i])
    requires StopsAtFailure(TLSPair(fs[i]), more, ok)
    ensures if ok then done + more == TLSEvents(fs[..i + 1]) else StopsAtFailure(TLSEvents(fs), done + more, false)
  {
    hide TLSPair, TLSEvents;
    TLSEventsNext(fs, i);
    if !ok {
      StopsAfter(done, TLSPair(fs[i]), more, false);
      TLSPrefix(fs, i + 1);
      var all, first := TLSEvents(fs), TLSEvents(fs[..i + 1]);
      assert all == first + all[|first|..];
      StopsBefore(first, all[|first|..], done + more);
    }
  }

  lemma TLSEventsNext(fs: seq<ForwardAddrs>, i: nat)
    requires i < |fs|
    ensures TLSEvents(fs[..i + 1]) == TLSEvents(fs[..i]) + (if fs[i].tlsTunnelPort != 0 then TLSPair(fs[i]) else [])
    ensures TLSRelays(fs[..i + 1]) == TLSRelays(fs[..i]) + (if fs[i].tlsTunnelPort != 0 then [TLSRelay(fs[i])] else [])
  {
    assert fs[..i + 1][..i] == fs[..i];
  }

  class Listener {
    const relay: Relay
    var open: bool

    constructor (relay: Relay)
      ensures this.relay == relay && open
    {
      this.relay := relay;
      open := true;
    }
  }

  /** The listeners are open and serve the first of these relays, in order. */
  ghost predicate Serve(ls: seq<Listener>, relays: seq<Relay>)
    reads ls
  {
    |ls| <= |relays| && forall j | 0 <= j < |ls| :: ls[j].open && ls[j].relay == relays[j]
  }

  function RelaysOf(ls: seq<Listener>): seq<Relay> {
    seq(|ls|, j requires 0 <= j < |ls| => ls[j].relay)
  }

  /** The addresses these relays listen on. */
  function Addresses(relays: seq<Relay>): (addrs: seq<string>)
    ensures |addrs| == |relays|
  {
    seq(|relays|, j requires 0 <= j < |relays| => relays[j].listen)
  }

  /** ssh.Tunnel: `running` is whether `shutdownChan` is set. */
  class SSHTunnel {
    const forwards: seq<ForwardAddrs>
    var running: bool
    var listeners: seq<Listener>

    constructor (forwards: seq<ForwardAddrs>)
      ensures this.forwards == forwards && !running && listeners == []
    {
      this.forwards := forwards;
      running, listeners := false, [];
    }

    /** Refused while running. Otherwise one listener per forward, in order, up to
        the first that cannot be opened; those opened before it stay open. */
    method Start(world: World) returns (ok: bool, ghost added: seq<Listener>)
      modifies this`running, this`listeners, world
      ensures old(running) ==> !ok && unchanged(this) && unchanged(world) && added == []
      ensures !old(running) ==>
        && running == ok && listeners == old(listeners) + added
        && fresh(added) && Serve(added, SSHRelays(forwards)) && (ok ==> |added| == |forwards|)
        && old(world.trace) <= world.trace
        && StopsAtFailure(ListenEvents(forwards), world.trace[|old(world.trace)|..], ok)
        && Opened(world.trace[|old(world.trace)|..]) == Addresses(RelaysOf(added))
    {
      hide Addr, Opened;
      added := [];
      if running {
        return false, [];
      }
      ghost var plan := ListenEvents(forwards);
      NoneOpened();
      for i := 0 to |forwards|
        invariant !running && |added| == i && listeners == old(listeners) + added
        invariant fresh(added) && Serve(added, SSHRelays(forwards))
        invariant world.trace == old(world.trace) + plan[..i] && Opened(plan[..i]) == Addresses(RelaysOf(added))
      {
        OpenedMore(plan[..i], plan[i]);
        OpenedMore(plan[..i], plan[i].(ok := false));
        assert plan[..i + 1] == plan[..i] + [plan[i]];
        var listener;
        ok, listener := Forward(i, world);
        if !ok {
          assert world.trace[|old(world.trace)|..] == plan[..i] + [plan[i].(ok := false)];
          return;
        }
        listeners := listeners + [listener];
        added := added + [listener];
      }
      running, ok := true, true;
      assert world.trace[|old(world.trace)|..] == plan;
    }

    /** Opens the listener of the `i`-th forward. */
    method Forward(i: nat, world: World) returns (ok: bool, listener: Listener?)
      requires i < |forwards|
      modifies world
      ensures world.trace == old(world.trace) + [ListenEvents(forwards)[i].(ok := ok)]
      ensures ok ==> listener != null && fresh(listener) && listener.open && listener.relay == SSHRelays(forwards)[i]
    {
      ok := world.Listen(forwards[i].LocalAddress());
      listener := null;
      if ok {
        listener := new Listener(Relay(forwards[i].LocalAddress(), forwards[i].remoteAddr));
      }
    }

    /** Closes every listener in the list, when running; otherwise nothing. */
    method Stop()
      modifies this`running, listeners
      ensures !running
      ensures forall l | l in listeners :: l.open == (old(l.open) && !old(running))
    {
      if running {
        for i := 0 to |listeners|
          invariant running
          invariant forall l | l in listeners :: l.open ==> old(l.open) && l !in listeners[..i]
        {
          listeners[i].open := false;
        }
        running := false;
      }
    }
  }

  /** After these calls the tunnel has a listener for every one that worked, all of
      them open, and runs exactly if all forwards got theirs. */
  ghost predicate HasListeners(tunnel: SSHTunnel?, fs: seq<ForwardAddrs>, es: seq<Event>)
    reads tunnel, if tunnel == null then [] else tunnel.listeners
  {
    if tunnel == null then Opened(es) == []
    else
      && Opened(es) == Addresses(RelaysOf(tunnel.listeners)) && (tunnel.running <==> ListenEvents(fs) <= es)
      && forall l | l in tunnel.listeners :: l.open
  }

  lemma NothingHeld()
    ensures forall fs :: HasListeners(null, fs, [])
  {
  }

  /** These calls opened something but not all, so that `Start` failed part way. */
  predicate OpenedInPart(fs: seq<ForwardAddrs>, es: seq<Event>) {
    Opened(es) != [] && !(ListenEvents(fs) <= es)
  }

  /** After `Stop` those listeners are open exactly if `Start` had failed part way. */
  ghost predicate Released(tunnel: SSHTunnel?, fs: seq<ForwardAddrs>, es: seq<Event>)
    reads tunnel, if tunnel == null then [] else tunnel.listeners
  {
    if tunnel == null then Opened(es) == []
    else
      && !tunnel.running && Opened(es) == Addresses(RelaysOf(tunnel.listeners))
      && forall l | l in tunnel.listeners :: l.open <==> OpenedInPart(fs, es)
  }

  /** tls.Tunnel. It may be stopped only once its listener exists. */
  class TLSTunnel {
    const relay: Relay
    const actualAddr: string
    var hasListener: bool

    constructor (localAddr: string, remoteAddr: string, actualAddr: string)
      ensures relay == Relay(localAddr, remoteAddr) && this.actualAddr == actualAddr && !hasListener
    {
      relay := Relay(localAddr, remoteAddr);
      this.actualAddr := actualAddr;
      hasListener := false;
    }

    /** The name the server's certificate is checked against. */
    function ServerName(): string {
      Split(actualAddr, ":")[0]
    }

    method Start(world: World) returns (ok: bool)
      modifies this, world
      ensures hasListener == ok
      ensures world.trace == old(world.trace) + [Did(Listen(relay.listen), ok)]
    {
      ok := world.Listen(relay.listen);
      hasListener := ok;
    }

    method Stop(world: World) returns (ok: bool)
      requires hasListener
      modifies world
      ensures world.trace == old(world.trace) + [Did(CloseTLS(relay.listen), ok)]
    {
      ok := world.CloseListener(relay.listen);
    }
  }

  function TLSRelaysOf(ts: seq<TLSTunnel>): seq<Relay> {
    seq(|ts|, j requires 0 <= j < |ts| => ts[j].relay)
  }

  /** The tunnel stands in front of one of these forwards: it listens on its TLS
      address, dials its local one, and expects the server at its remote one. */
  predicate Fronts(t: TLSTunnel, fs: seq<ForwardAddrs>) {
    exists j | 0 <= j < |fs| ::
      fs[j].tlsTunnelPort != 0 && t.relay == TLSRelay(fs[j]) && t.actualAddr == fs[j].remoteAddr
  }

  /** The tunnels have listeners and are the first of these relays, in order. */
  ghost predicate Secure(ts: seq<TLSTunnel>, relays: seq<Relay>)
    reads ts
  {
    |ts| <= |relays| && forall j | 0 <= j < |ts| :: ts[j].hasListener && ts[j].relay == relays[j]
  }

  lemma {:induction false} FirstPieceHasNone(s: string)
    ensures ':' !in Split(s, ":")[0]
  {
    if s != "" {
      FirstPieceHasNone(s[1..]);
      assert ":" <= s <==> s[0] == ':';
    }
  }

  lemma {:induction false} FirstPieceIs(host: string, rest: string)
    requires ':' !in host
    ensures Split(host + ":" + rest, ":")[0] == host
  {
    var s := host + ":" + rest;
    if host == "" {
      assert ":" <= s;
    } else {
      FirstPieceIs(host[1..], rest);
      assert s[0] == host[0] && s[1..] == host[1..] + ":" + rest;
      assert !(":" <= s);
    }
  }

  /** The name a TLS tunnel checks the server's certificate against, the part of
      the remote address before the first colon, is the host of that address
      exactly if the host has no colon in it. */
  lemma ServerNameIsHostIff(host: string, port: int)
    ensures Split(Addr(host, port), ":")[0] == host <==> ':' !in host
  {
    FirstPieceHasNone(Addr(host, port));
    if ':' !in host { FirstPieceIs(host, Decimal(port)); }
  }
}
