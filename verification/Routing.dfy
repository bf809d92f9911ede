/** Where a connection to a rewritten address ends up, through the listeners the
    TLS and SSH tunnels have opened for the planned forwards. */
module Routing {
  import opened GoStrings
  import opened ServiceCredentials
  import opened Plan
  import opened PlanFacts

  /** A listener and the address it dials for each connection. */
  datatype Relay = Relay(listen: string, dial: string)

  /** The open listeners: SSH ones dial from the app, TLS ones from here. */
  datatype Net = Net(ssh: seq<Relay>, tls: seq<Relay>)

  function SSHRelays(fs: seq<ForwardAddrs>): (rs: seq<Relay>)
    ensures |rs| == |fs|
  {
    seq(|fs|, j requires 0 <= j < |fs| => Relay(fs[j].LocalAddress(), fs[j].remoteAddr))
  }

  function TLSRelay(fwd: ForwardAddrs): Relay {
    Relay(fwd.TLSTunnelAddress(), fwd.LocalAddress())
  }

  function TLSRelays(fs: seq<ForwardAddrs>): seq<Relay> {
    if fs == [] then []
    else if fs[|fs| - 1].tlsTunnelPort != 0 then TLSRelays(fs[..|fs| - 1]) + [TLSRelay(fs[|fs| - 1])]
    else TLSRelays(fs[..|fs| - 1])
  }

  function NetOf(fs: seq<ForwardAddrs>): Net {
    Net(SSHRelays(fs), TLSRelays(fs))
  }

  /** An address on this machine, or one dialled from the app. */
  datatype Endpoint = Here(addr: string) | Remote(addr: string)

  ghost predicate Hop(net: Net, a: Endpoint, b: Endpoint) {
    a.Here? && (if b.Here? then Relay(a.addr, b.addr) in net.tls else Relay(a.addr, b.addr) in net.ssh)
  }

  /** `b` can be reached from `a` in this many hops. */
  ghost predicate Leads(net: Net, a: Endpoint, b: Endpoint, hops: nat)
    decreases hops
  {
    if hops == 0 then a == b else exists m :: Hop(net, a, m) && Leads(net, m, b, hops - 1)
  }

  predicate IsTLSRelay(fs: seq<ForwardAddrs>, r: Relay, j: nat) {
    j < |fs| && fs[j].tlsTunnelPort != 0 && r == TLSRelay(fs[j])
  }

  predicate HasTLSRelay(fs: seq<ForwardAddrs>, r: Relay) {
    exists j | 0 <= j < |fs| :: IsTLSRelay(fs, r, j)
  }

  lemma LastTLSRelay(fs: seq<ForwardAddrs>, r: Relay)
    requires fs != []
    ensures r in TLSRelays(fs) <==> r in TLSRelays(fs[..|fs| - 1]) || IsTLSRelay(fs, r, |fs| - 1)
  {
  }

  lemma SameTLSRelay(fs: seq<ForwardAddrs>, r: Relay, j: nat)
    requires j < |fs| - 1
    ensures IsTLSRelay(fs, r, j) <==> IsTLSRelay(fs[..|fs| - 1], r, j)
  {
  }

  lemma OtherTLSRelays(fs: seq<ForwardAddrs>, r: Relay)
    requires fs != []
    ensures HasTLSRelay(fs, r) <==> HasTLSRelay(fs[..|fs| - 1], r) || IsTLSRelay(fs, r, |fs| - 1)
  {
    hide IsTLSRelay;
    var init := fs[..|fs| - 1];
    if j :| 0 <= j < |init| && IsTLSRelay(init, r, j) { SameTLSRelay(fs, r, j); }
    if j :| 0 <= j < |init| && IsTLSRelay(fs, r, j) { SameTLSRelay(fs, r, j); }
  }

  lemma {:induction false} TLSRelayIff(fs: seq<ForwardAddrs>, r: Relay)
    ensures r in TLSRelays(fs) <==> HasTLSRelay(fs, r)
  {
    if fs != [] {
      TLSRelayIff(fs[..|fs| - 1], r);
      LastTLSRelay(fs, r);
      OtherTLSRelays(fs, r);
    }
  }

  // ------------------------------------------------------- distinct ports

  /** How many ports were issued before the `j`-th forward. */
  function Before(fs: seq<ForwardAddrs>, j: nat): nat
    requires j <= |fs|
  {
    j + CountTLS(fs[..j])
  }

  lemma {:induction false} BeforeGrows(fs: seq<ForwardAddrs>, i: nat, j: nat)
    requires i < j <= |fs|
    ensures Before(fs, i) + (if fs[i].tlsTunnelPort != 0 then 2 else 1) <= Before(fs, j)
    decreases j
  {
    assert fs[..j][..j - 1] == fs[..j - 1];
    if i < j - 1 { BeforeGrows(fs, i, j - 1); }
  }

  lemma {:induction false} IssuedAt(fs: seq<ForwardAddrs>, j: nat)
    requires j < |fs|
    ensures var at := Before(fs, j); var extra := if fs[j].tlsTunnelPort != 0 then 1 else 0;
      && at + extra < |Issued(fs)| && Issued(fs)[at] == fs[j].localPort
      && (extra == 1 ==> Issued(fs)[at + 1] == fs[j].tlsTunnelPort)
  {
    var init := fs[..|fs| - 1];
    IssuedLength(init);
    if j < |fs| - 1 {
      IssuedAt(init, j);
      assert init[..j] == fs[..j];
    } else {
      assert fs[..j] == init;
    }
  }

  /** The listening ports of one forward. */
  function Ports(fwd: ForwardAddrs): set<int> {
    if fwd.tlsTunnelPort != 0 then {fwd.localPort, fwd.tlsTunnelPort} else {fwd.localPort}
  }

  /** No port listens for two forwards, nor twice for one. */
  ghost predicate PortsApart(fs: seq<ForwardAddrs>) {
    && (forall i, j | 0 <= i < j < |fs| :: Ports(fs[i]) !! Ports(fs[j]))
    && (forall j | 0 <= j < |fs| :: fs[j].localPort != fs[j].tlsTunnelPort)
  }

  lemma ConsecutiveIsApart(fs: seq<ForwardAddrs>, port: nat, next: int)
    requires port > 0 && Consecutive(fs, port, next)
    ensures PortsApart(fs)
    ensures forall j | 0 <= j < |fs| :: forall p | p in Ports(fs[j]) :: port <= p < next
  {
    forall j | 0 <= j < |fs|
      ensures fs[j].localPort == port + Before(fs, j) < next
      ensures fs[j].tlsTunnelPort != 0 ==> fs[j].tlsTunnelPort == port + Before(fs, j) + 1 < next
    {
      IssuedAt(fs, j);
    }
    forall i, j | 0 <= i < j < |fs| ensures Ports(fs[i]) !! Ports(fs[j]) {
      BeforeGrows(fs, i, j);
    }
  }

  // ---------------------------------------------------------------- routes

  lemma LocalhostInjective(p: int, q: int)
    ensures Addr("localhost", p) == Addr("localhost", q) <==> p == q
  {
    assert Addr("localhost", p)[10..] == Decimal(p);
    assert Addr("localhost", q)[10..] == Decimal(q);
    if Addr("localhost", p) == Addr("localhost", q) { DecimalInjective(p, q); }
  }

  /** Listening addresses are as distinct as the ports. */
  lemma AddressesApart(fs: seq<ForwardAddrs>, i: nat, j: nat)
    requires PortsApart(fs) && i < |fs| && j < |fs|
    ensures fs[i].LocalAddress() == fs[j].LocalAddress() <==> i == j
    ensures fs[i].tlsTunnelPort != 0 ==> fs[i].TLSTunnelAddress() != fs[j].LocalAddress()
    ensures fs[i].tlsTunnelPort != 0 && fs[j].tlsTunnelPort != 0 ==>
      (fs[i].TLSTunnelAddress() == fs[j].TLSTunnelAddress() <==> i == j)
  {
    LocalhostInjective(fs[i].localPort, fs[j].localPort);
    LocalhostInjective(fs[i].tlsTunnelPort, fs[j].localPort);
    LocalhostInjective(fs[i].tlsTunnelPort, fs[j].tlsTunnelPort);
    assert fs[i].localPort in Ports(fs[i]) && fs[j].localPort in Ports(fs[j]);
    assert fs[i].tlsTunnelPort != 0 ==> fs[i].tlsTunnelPort in Ports(fs[i]);
    assert fs[j].tlsTunnelPort != 0 ==> fs[j].tlsTunnelPort in Ports(fs[j]);
  }

  lemma SSHHopIff(fs: seq<ForwardAddrs>, j: nat, r: string)
    requires PortsApart(fs) && j < |fs|
    ensures Relay(fs[j].LocalAddress(), r) in SSHRelays(fs) <==> r == fs[j].remoteAddr
  {
    var rs := SSHRelays(fs);
    assert rs[j] == Relay(fs[j].LocalAddress(), fs[j].remoteAddr);
    forall k | 0 <= k < |fs| ensures rs[k].listen == fs[j].LocalAddress() <==> k == j {
      AddressesApart(fs, k, j);
    }
  }

  lemma NoSSHHopFromTLS(fs: seq<ForwardAddrs>, j: nat, r: string)
    requires PortsApart(fs) && j < |fs| && fs[j].tlsTunnelPort != 0
    ensures Relay(fs[j].TLSTunnelAddress(), r) !in SSHRelays(fs)
  {
    var rs := SSHRelays(fs);
    forall k | 0 <= k < |fs| ensures rs[k].listen != fs[j].TLSTunnelAddress() {
      AddressesApart(fs, j, k);
    }
  }

  lemma NoTLSHopFromLocal(fs: seq<ForwardAddrs>, j: nat, b: string)
    requires PortsApart(fs) && j < |fs|
    ensures Relay(fs[j].LocalAddress(), b) !in TLSRelays(fs)
  {
    var r := Relay(fs[j].LocalAddress(), b);
    TLSRelayIff(fs, r);
    forall k: nat ensures !IsTLSRelay(fs, r, k) {
      if k < |fs| { AddressesApart(fs, k, j); }
    }
  }

  lemma TLSHopIff(fs: seq<ForwardAddrs>, j: nat, b: string)
    requires PortsApart(fs) && j < |fs| && fs[j].tlsTunnelPort != 0
    ensures Relay(fs[j].TLSTunnelAddress(), b) in TLSRelays(fs) <==> b == fs[j].LocalAddress()
  {
    var r := Relay(fs[j].TLSTunnelAddress(), b);
    TLSRelayIff(fs, r);
    forall k: nat ensures IsTLSRelay(fs, r, k) <==> k == j && b == fs[j].LocalAddress() {
      if k < |fs| { OneTLSRelay(fs, j, k, b); }
    }
    assert IsTLSRelay(fs, r, j) <==> b == fs[j].LocalAddress();
  }

  lemma OneTLSRelay(fs: seq<ForwardAddrs>, j: nat, k: nat, b: string)
    requires PortsApart(fs) && j < |fs| && k < |fs| && fs[j].tlsTunnelPort != 0
    ensures IsTLSRelay(fs, Relay(fs[j].TLSTunnelAddress(), b), k) <==> k == j && b == fs[j].LocalAddress()
  {
    AddressesApart(fs, k, j);
  }

  /** An endpoint with a single way on leads where that way leads. */
  lemma OnlyHop(net: Net, a: Endpoint, m: Endpoint, r: Endpoint, hops: nat)
    requires a.Here? && r.Remote?
    requires forall b: Endpoint :: Hop(net, a, b) <==> b == m
    ensures Leads(net, a, r, hops) <==> hops > 0 && Leads(net, m, r, hops - 1)
  {
    assert Hop(net, a, m);
  }

  lemma RouteFromLocal(fs: seq<ForwardAddrs>, j: nat, r: string, hops: nat)
    requires PortsApart(fs) && j < |fs|
    ensures Leads(NetOf(fs), Here(fs[j].LocalAddress()), Remote(r), hops) <==> hops == 1 && r == fs[j].remoteAddr
  {
    var net, local, remote := NetOf(fs), Here(fs[j].LocalAddress()), Remote(fs[j].remoteAddr);
    forall b: Endpoint ensures Hop(net, local, b) <==> b == remote {
      if b.Here? { NoTLSHopFromLocal(fs, j, b.addr); } else { SSHHopIff(fs, j, b.addr); }
    }
    OnlyHop(net, local, remote, Remote(r), hops);
    assert forall b: Endpoint :: !Hop(net, remote, b);
  }

  /** Where the port the credentials were rewritten to can lead: to the forward's
      remote address and nowhere else, through the TLS tunnel if there is one. */
  lemma RouteOfForward(fs: seq<ForwardAddrs>, j: nat, r: string, hops: nat)
    requires PortsApart(fs) && j < |fs|
    ensures Leads(NetOf(fs), Here(Addr("localhost", fs[j].ConnectPort())), Remote(r), hops) <==>
      r == fs[j].remoteAddr && hops == if fs[j].tlsTunnelPort != 0 then 2 else 1
  {
    if fs[j].tlsTunnelPort == 0 {
      RouteFromLocal(fs, j, r, hops);
    } else {
      var net, a, local := NetOf(fs), Here(fs[j].TLSTunnelAddress()), Here(fs[j].LocalAddress());
      forall b: Endpoint ensures Hop(net, a, b) <==> b == local {
        if b.Here? { TLSHopIff(fs, j, b.addr); } else { NoSSHHopFromTLS(fs, j, b.addr); }
      }
      OnlyHop(net, a, local, Remote(r), hops);
      if hops > 0 { RouteFromLocal(fs, j, r, hops - 1); }
    }
  }

  /** End to end: the rewritten credentials of every kept binding name a port from
      which exactly the old address is reached, in two hops with a TLS tunnel and
      in one without; the host they name is this machine if they had a host key;
      and no listening port is shared by the routes of two bindings. */
  lemma RoutesEndToEnd(c: Config, names: seq<string>, port: nat, env: map<string, string>,
                       slots: seq<Slot>, seens: seq<Seen>, j: nat, r: string, hops: nat, host: string)
    requires port > 0 && port + 2 * |slots| <= MAX_INT64 && |seens| == |slots|
    requires AllSeen(c, Start(names, port, env), slots, seens, |slots|)
    requires j < |PassAfter(c, Start(names, port, env), slots, seens, |slots|).kept|
    requires var p := PassAfter(c, Start(names, port, env), slots, seens, |slots|);
      p.kept[j] in p.after && MayGet(p.after[p.kept[j]], HOST_KEYS, host)
    ensures var p := PassAfter(c, Start(names, port, env), slots, seens, |slots|);
      && |p.forwards| == |p.kept| && p.kept[j] < |slots|
      && (Leads(NetOf(p.forwards), Here(Addr("localhost", PortOf(p.after[p.kept[j]]))), Remote(r), hops) <==>
            r == Addr(seens[p.kept[j]].remoteHost, PortOf(slots[p.kept[j]].entry.creds))
            && hops == if p.forwards[j].tlsTunnelPort != 0 then 2 else 1)
      && MayGet(slots[p.kept[j]].entry.creds, HOST_KEYS, seens[p.kept[j]].remoteHost)
      && host == (if HasHostKey(slots[p.kept[j]].entry.creds) then LOOPBACK else "")
      && PortsApart(p.forwards)
  {
    var p := PassAfter(c, Start(names, port, env), slots, seens, |slots|);
    PortsAreConsecutive(c, names, port, env, slots, seens, |slots|);
    ConsecutiveIsApart(p.forwards, port, p.nextPort);
    ForwardsFit(c, names, port, env, slots, seens, |slots|);
    KeptMaySee(c, Start(names, port, env), slots, seens, |slots|, p.kept[j]);
    KeptAtMost(c, names, port, env, slots, seens, |slots|);
    var i, fwd := p.kept[j], p.forwards[j];
    assert Fits(c, slots, seens, p, j);
    assert fwd.ConnectPort() in Ports(fwd);
    IssuedLength(p.forwards);
    CountTLSAtMost(p.forwards);
    assert MaySetAddress(slots[i].entry.creds, p.after[i], LOOPBACK, fwd.ConnectPort());
    ReadBack(slots[i].entry.creds, p.after[i], LOOPBACK, fwd.ConnectPort(), host);
    RouteOfForward(p.forwards, j, r, hops);
  }

  lemma {:induction false} CountTLSAtMost(fs: seq<ForwardAddrs>)
    ensures CountTLS(fs) <= |fs|
  {
    if fs != [] { CountTLSAtMost(fs[..|fs| - 1]); }
  }

  lemma {:induction false} KeptAtMost(c: Config, names: seq<string>, port: int, env: map<string, string>,
                                      slots: seq<Slot>, seens: seq<Seen>, n: nat)
    requires n <= |slots| && n <= |seens|
    ensures |PassAfter(c, Start(names, port, env), slots, seens, n).kept| <= n
  {
    if n > 0 { KeptAtMost(c, names, port, env, slots, seens, n - 1); }
  }

  /** Whatever is kept was handled with answers the lookups can give. */
  lemma {:induction false} KeptMaySee(c: Config, start: Pass, slots: seq<Slot>, seens: seq<Seen>, n: nat, i: nat)
    requires n <= |slots| && n <= |seens| && AllSeen(c, start, slots, seens, n)
    requires start.kept == [] && i in PassAfter(c, start, slots, seens, n).kept
    ensures i < n && MayGet(slots[i].entry.creds, HOST_KEYS, seens[i].remoteHost)
    ensures MayGet(slots[i].entry.creds, HOST_KEYS, seens[i].oldHost)
  {
    if n > 0 {
      var p := PassAfter(c, start, slots, seens, n - 1);
      assert MaySee(c, p, slots[n - 1], seens[n - 1]);
      if i in p.kept {
        KeptMaySee(c, start, slots, seens, n - 1, i);
      }
    }
  }
}
