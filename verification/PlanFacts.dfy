/** What holds of every pass of `initServiceBindings`, whatever the bindings, the
    requested names, the providers and the answers of the lookups. */
module PlanFacts {
  import opened GoStrings
  import opened ServiceCredentials
  import opened Outside
  import opened Services
  import opened Plan

  // ------------------------------------------------------- visiting order

  lemma {:induction false} SlotsAppend(keys: seq<string>, env: Environment, n: nat)
    requires n < |keys| && forall k | k in keys :: k in env
    ensures Slots(keys[..n + 1], env) == Slots(keys[..n], env) + Block(keys[n], env[keys[n]])
  {
    assert keys[..n + 1][..n] == keys[..n];
  }

  /** The bindings come by service type in sorted order. */
  lemma {:induction false} SlotsAreOrdered(keys: seq<string>, env: Environment)
    requires StrictlySorted(keys) && forall k | k in keys :: k in env
    ensures forall i | 0 <= i < |Slots(keys, env)| :: Slots(keys, env)[i].serviceType in keys
    ensures forall i, j | 0 <= i < j < |Slots(keys, env)| ::
        Slots(keys, env)[i].serviceType == Slots(keys, env)[j].serviceType
        || SortsBefore(Slots(keys, env)[i].serviceType, Slots(keys, env)[j].serviceType)
  {
    if keys != [] {
      hide Less, SortsBefore;
      var init, last := keys[..|keys| - 1], keys[|keys| - 1];
      SlotsAreOrdered(init, env);
      forall k | k in init ensures SortsBefore(k, last) { LessIff(k, last); }
    }
  }

  /** So mysql comes before postgres, and gets the first port. */
  lemma MySQLComesFirst(keys: seq<string>, env: Environment, db: Entry, pg: Entry, c: Config, seens: seq<Seen>)
    requires StrictlySorted(keys) && (forall k :: k in keys <==> k in env)
    requires env == map["postgres" := [pg], "mysql" := [db]] && db.instanceName != pg.instanceName
    requires "mysql" in c.providers && "postgres" in c.providers && |seens| == 2
    ensures Slots(keys, env) == [Slot("mysql", db), Slot("postgres", pg)]
    ensures var p := PassAfter(c, Start([pg.instanceName, db.instanceName], 7080, map[]), Slots(keys, env), seens, 2);
      && p.kept == [0, 1] && |p.forwards| == 2 && p.forwards[0].localPort == 7080 && p.forwards[1].localPort == 7081
  {
    var sorted := ["mysql", "postgres"];
    assert Less("mysql", "postgres");
    assert StrictlySorted(sorted);
    assert forall k :: k in sorted <==> k in env;
    SortedIsUnique(keys, sorted);
    TwoTypes(env, db, pg);
    var start := Start([pg.instanceName, db.instanceName], 7080, map[]);
    TwoSteps(c, start, [Slot("mysql", db), Slot("postgres", pg)], seens);
  }

  lemma TwoTypes(env: Environment, db: Entry, pg: Entry)
    requires env == map["postgres" := [pg], "mysql" := [db]]
    ensures Slots(["mysql", "postgres"], env) == [Slot("mysql", db), Slot("postgres", pg)]
  {
    var keys := ["mysql", "postgres"];
    assert keys[..1] == ["mysql"] && keys[..1][..0] == [];
    assert Slots(keys[..1], env) == Slots([], env) + Block("mysql", [db]);
  }

  lemma TwoSteps(c: Config, start: Pass, slots: seq<Slot>, seens: seq<Seen>)
    requires |slots| == |seens| == 2 && start.stopped.None? && start.kept == [] && start.forwards == []
    requires slots[0].entry.instanceName in start.waiting && slots[1].entry.instanceName in start.waiting
    requires slots[0].entry.instanceName != slots[1].entry.instanceName
    requires slots[0].serviceType in c.providers && slots[1].serviceType in c.providers
    requires slots[0].serviceType != "redis"
    ensures var p := PassAfter(c, start, slots, seens, 2);
      && p.kept == [0, 1] && |p.forwards| == 2
      && p.forwards[0].localPort == start.nextPort && p.forwards[1].localPort == start.nextPort + 1
  {
    hide CredsAfter, KnownClients;
    var p := PassAfter(c, start, slots, seens, 1);
    assert p == Step(c, PassAfter(c, start, slots, seens, 0), 0, slots[0], seens[0]);
  }

  /** The entries listed under one service type, in visiting order. */
  function EntriesOf(slots: seq<Slot>, serviceType: string): seq<Entry> {
    if slots == [] then []
    else
      var rest := EntriesOf(slots[..|slots| - 1], serviceType);
      var last := slots[|slots| - 1];
      if last.serviceType == serviceType then rest + [last.entry] else rest
  }

  lemma {:induction false} EntriesOfAppend(a: seq<Slot>, b: seq<Slot>, t: string)
    ensures EntriesOf(a + b, t) == EntriesOf(a, t) + EntriesOf(b, t)
  {
    if b == [] {
      assert a + b == a;
    } else {
      EntriesOfAppend(a, b[..|b| - 1], t);
      assert (a + b)[..|a + b| - 1] == a + b[..|b| - 1];
    }
  }

  lemma {:induction false} EntriesOfBlock(key: string, entries: seq<Entry>, t: string)
    ensures EntriesOf(Block(key, entries), t) == if t == key then entries else []
  {
    if entries != [] {
      var init := entries[..|entries| - 1];
      EntriesOfBlock(key, init, t);
      assert Block(key, entries)[..|entries| - 1] == Block(key, init);
      assert init + [entries[|entries| - 1]] == entries;
    }
  }

  /** Visiting loses no binding and keeps the order within a type. */
  lemma {:induction false} SlotsHoldEverything(keys: seq<string>, env: Environment, t: string)
    requires StrictlySorted(keys) && forall k | k in keys :: k in env
    ensures EntriesOf(Slots(keys, env), t) == if t in keys then env[t] else []
  {
    if keys != [] {
      var init, last := keys[..|keys| - 1], keys[|keys| - 1];
      SlotsHoldEverything(init, env, t);
      EntriesOfAppend(Slots(init, env), Block(last, env[last]), t);
      EntriesOfBlock(last, env[last], t);
      LessIrreflexive(last);
      assert forall k | k in init :: Less(k, last);
      assert forall k :: k in keys <==> k in init || k == last;
    }
  }

  /** A set of strings has one sorted listing. */
  lemma {:induction false} SortedIsUnique(a: seq<string>, b: seq<string>)
    requires StrictlySorted(a) && StrictlySorted(b)
    requires forall k :: k in a <==> k in b
    ensures a == b
  {
    assert a != [] ==> a[0] in a;
    assert b != [] ==> b[0] in b;
    if a != [] {
      var at :| 0 <= at < |b| && b[at] == a[0];
      var back :| 0 <= back < |a| && a[back] == b[0];
      if at != 0 {
        assert Less(b[0], a[0]);
        if back != 0 { LessTransitive(a[0], b[0], a[0]); }
        LessIrreflexive(a[0]);
      }
      LessIrreflexive(a[0]);
      TailsAgree(a, b);
      SortedIsUnique(a[1..], b[1..]);
    }
  }

  lemma TailsAgree(a: seq<string>, b: seq<string>)
    requires StrictlySorted(a) && StrictlySorted(b) && a != [] && b != [] && a[0] == b[0]
    requires forall k :: k in a <==> k in b
    ensures forall k :: k in a[1..] <==> k in b[1..]
  {
    LessIrreflexive(a[0]);
    forall k ensures k in a[1..] <==> k in a && k != a[0] {
      if k in a && k != a[0] { var i :| 0 <= i < |a| && a[i] == k; assert a[1..][i - 1] == k; }
    }
    forall k ensures k in b[1..] <==> k in b && k != b[0] {
      if k in b && k != b[0] { var i :| 0 <= i < |b| && b[i] == k; assert b[1..][i - 1] == k; }
    }
  }

  /** More answers do not change the pass so far. */
  lemma {:induction false} PassPrefix(c: Config, start: Pass, slots: seq<Slot>, seens: seq<Seen>, more: seq<Seen>,
                                      n: nat)
    requires n <= |seens| && n <= |slots|
    ensures PassAfter(c, start, slots, seens + more, n) == PassAfter(c, start, slots, seens, n)
    ensures AllSeen(c, start, slots, seens + more, n) == AllSeen(c, start, slots, seens, n)
  {
    if n > 0 { PassPrefix(c, start, slots, seens, more, n - 1); }
  }

  // ------------------------------------------------- selection and pruning

  /** The slot holds the first occurrence of a requested name. */
  predicate FirstAt(slots: seq<Slot>, names: seq<string>, i: nat) {
    && i < |slots|
    && slots[i].entry.instanceName in names
    && forall j | 0 <= j < i :: slots[j].entry.instanceName != slots[i].entry.instanceName
  }

  predicate Increasing(s: seq<nat>) {
    forall i, j | 0 <= i < j < |s| :: s[i] < s[j]
  }

  /** How many slots the pass has looked at as something to keep. */
  function Horizon(p: Pass, n: nat): nat {
    if p.stopped.Some? then p.stopped.value else n
  }

  /** The name does not occur among the first `n` slots. */
  predicate Unseen(slots: seq<Slot>, x: string, n: nat)
    requires n <= |slots|
  {
    forall j | 0 <= j < n :: slots[j].entry.instanceName != x
  }

  /** A pass that ended did so at the first occurrence of a requested name under
      an unknown type; the names still waiting are those not met so far. */
  ghost predicate Waits(c: Config, names: seq<string>, slots: seq<Slot>, p: Pass, n: nat)
    requires n <= |slots|
  {
    match p.stopped
    case None =>
      forall x :: x in p.waiting <==> x in names && Unseen(slots, x, n)
    case Some(f) =>
      && f < n && FirstAt(slots, names, f) && slots[f].serviceType !in c.providers
      && forall x :: x in p.waiting <==> x in names && Unseen(slots, x, f + 1)
  }

  lemma {:induction false} WaitsAlways(c: Config, names: seq<string>, port: int, env: map<string, string>,
                                       slots: seq<Slot>, seens: seq<Seen>, n: nat)
    requires n <= |slots| && n <= |seens|
    ensures Waits(c, names, slots, PassAfter(c, Start(names, port, env), slots, seens, n), n)
  {
    if n > 0 {
      WaitsAlways(c, names, port, env, slots, seens, n - 1);
      forall x ensures Unseen(slots, x, n) <==> Unseen(slots, x, n - 1) && slots[n - 1].entry.instanceName != x {
      }
    }
  }

  /** What is kept is exactly the first occurrences of requested names in front
      of the end of the pass, in visiting order, one forward and one rewritten
      map each. */
  ghost predicate Selected(c: Config, names: seq<string>, slots: seq<Slot>, p: Pass, n: nat)
    requires n <= |slots|
  {
    && (forall i: nat :: i in p.kept <==> i < Horizon(p, n) && FirstAt(slots, names, i))
    && Increasing(p.kept)
    && (forall i: nat | i in p.kept :: i < |slots| && slots[i].serviceType in c.providers)
    && |p.forwards| == |p.kept|
    && (forall i: nat :: i in p.after <==> i in p.kept)
  }

  lemma {:induction false} Selection(c: Config, names: seq<string>, port: int, env: map<string, string>,
                                     slots: seq<Slot>, seens: seq<Seen>, n: nat)
    requires n <= |slots| && n <= |seens|
    ensures Selected(c, names, slots, PassAfter(c, Start(names, port, env), slots, seens, n), n)
    ensures Waits(c, names, slots, PassAfter(c, Start(names, port, env), slots, seens, n), n)
  {
    WaitsAlways(c, names, port, env, slots, seens, n);
    if n > 0 {
      hide Step, Selected, Waits;
      WaitsAlways(c, names, port, env, slots, seens, n - 1);
      Selection(c, names, port, env, slots, seens, n - 1);
      var p := PassAfter(c, Start(names, port, env), slots, seens, n - 1);
      StepSelects(c, names, slots, p, seens[n - 1], n);
    }
  }

  lemma StepSelects(c: Config, names: seq<string>, slots: seq<Slot>, p: Pass, seen: Seen, n: nat)
    requires 0 < n <= |slots|
    requires Selected(c, names, slots, p, n - 1) && Waits(c, names, slots, p, n - 1)
    ensures Selected(c, names, slots, Step(c, p, n - 1, slots[n - 1], seen), n)
  {
    var q := Step(c, p, n - 1, slots[n - 1], seen);
    var x := slots[n - 1].entry.instanceName;
    assert p.stopped.None? ==> (x in p.waiting <==> FirstAt(slots, names, n - 1));
    if Keeps(c, p, slots[n - 1]) {
      SelectsMore(c, names, slots, p, q, n);
    } else {
      SelectsSame(c, names, slots, p, q, n);
    }
  }

  lemma SelectsSame(c: Config, names: seq<string>, slots: seq<Slot>, p: Pass, q: Pass, n: nat)
    requires 0 < n <= |slots| && Selected(c, names, slots, p, n - 1)
    requires q.kept == p.kept && q.forwards == p.forwards && q.after == p.after
    requires if p.stopped.Some? then q == p
             else q.stopped == Some(n - 1) || (q.stopped.None? && !FirstAt(slots, names, n - 1))
    ensures Selected(c, names, slots, q, n)
  {
  }

  lemma SelectsMore(c: Config, names: seq<string>, slots: seq<Slot>, p: Pass, q: Pass, n: nat)
    requires 0 < n <= |slots| && Selected(c, names, slots, p, n - 1)
    requires p.stopped.None? && q.stopped.None? && FirstAt(slots, names, n - 1)
    requires slots[n - 1].serviceType in c.providers
    requires q.kept == p.kept + [n - 1] && |q.forwards| == |p.forwards| + 1 && q.after.Keys == p.after.Keys + {n - 1}
    ensures Selected(c, names, slots, q, n)
  {
    hide FirstAt;
    IncreasingMore(p.kept, n - 1);
    assert forall i: nat :: i in q.after <==> i in p.after || i == n - 1;
  }

  lemma IncreasingMore(s: seq<nat>, x: nat)
    requires Increasing(s) && forall i | i in s :: i < x
    ensures Increasing(s + [x]) && forall i :: i in s + [x] <==> i in s || i == x
  {
    assert forall j | 0 <= j < |s| :: s[j] in s;
  }

  /** Each kept slot satisfies one requested name. */
  lemma {:induction false} KeptAndWaitingCount(c: Config, names: seq<string>, port: int, env: map<string, string>,
                                               slots: seq<Slot>, seens: seq<Seen>, n: nat)
    requires n <= |slots| && n <= |seens|
    ensures var p := PassAfter(c, Start(names, port, env), slots, seens, n);
      |p.kept| + |p.waiting| + (if p.stopped.Some? then 1 else 0) == |set x | x in names|
  {
    if n > 0 {
      KeptAndWaitingCount(c, names, port, env, slots, seens, n - 1);
    }
  }

  /** Pruning keeps the order within each type and loses no kept slot. */
  lemma {:induction false} KeptOfIsOrdered(slots: seq<Slot>, kept: seq<nat>, t: string)
    requires InRange(slots, kept) && Increasing(kept)
    ensures Increasing(KeptOf(slots, kept, t))
    ensures forall i: nat :: i in KeptOf(slots, kept, t) <==> i in kept && slots[i].serviceType == t
  {
    if kept != [] {
      var init, last := kept[..|kept| - 1], kept[|kept| - 1];
      assert kept == init + [last];
      KeptOfIsOrdered(slots, init, t);
      assert forall i | i in KeptOf(slots, init, t) :: i in init && i < last;
      IncreasingMore(init, last);
      IncreasingMore(KeptOf(slots, init, t), last);
    }
  }

  // ------------------------------------------------------------------ ports

  /** The ports handed out, in order: each local port, then its TLS port if any. */
  function Issued(fs: seq<ForwardAddrs>): seq<int> {
    if fs == [] then []
    else
      var last := fs[|fs| - 1];
      Issued(fs[..|fs| - 1])
      + (if last.tlsTunnelPort != 0 then [last.localPort, last.tlsTunnelPort] else [last.localPort])
  }

  function CountTLS(fs: seq<ForwardAddrs>): nat {
    if fs == [] then 0
    else CountTLS(fs[..|fs| - 1]) + (if fs[|fs| - 1].tlsTunnelPort != 0 then 1 else 0)
  }

  lemma {:induction false} IssuedLength(fs: seq<ForwardAddrs>)
    ensures |Issued(fs)| == |fs| + CountTLS(fs)
  {
    if fs != [] { IssuedLength(fs[..|fs| - 1]); }
  }

  lemma IssuedAppend(fs: seq<ForwardAddrs>, fwd: ForwardAddrs)
    ensures Issued(fs + [fwd]) ==
            Issued(fs) + (if fwd.tlsTunnelPort != 0 then [fwd.localPort, fwd.tlsTunnelPort] else [fwd.localPort])
    ensures CountTLS(fs + [fwd]) == CountTLS(fs) + (if fwd.tlsTunnelPort != 0 then 1 else 0)
  {
    assert (fs + [fwd])[..|fs|] == fs;
  }

  /** Every port from `port` up to `next` was issued once, in order. */
  ghost predicate Consecutive(fs: seq<ForwardAddrs>, port: int, next: int) {
    && next == port + |fs| + CountTLS(fs)
    && |Issued(fs)| == next - port
    && forall i | 0 <= i < |Issued(fs)| :: Issued(fs)[i] == port + i
  }

  lemma ConsecutiveMore(fs: seq<ForwardAddrs>, port: nat, next: int, remote: string, tls: bool)
    requires Consecutive(fs, port, next)
    ensures var fwd := ForwardAddrs(next, if tls then next + 1 else 0, remote);
      Consecutive(fs + [fwd], port, next + if tls then 2 else 1)
  {
    hide Issued, CountTLS;
    IssuedAppend(fs, ForwardAddrs(next, if tls then next + 1 else 0, remote));
  }

  /** The ports are consecutive, without gap or repeat, from the first on. */
  lemma {:induction false} PortsAreConsecutive(c: Config, names: seq<string>, port: nat, env: map<string, string>,
                                               slots: seq<Slot>, seens: seq<Seen>, n: nat)
    requires n <= |slots| && n <= |seens|
    ensures var p := PassAfter(c, Start(names, port, env), slots, seens, n); Consecutive(p.forwards, port, p.nextPort)
  {
    if n == 0 {
      assert Consecutive([], port, port);
    } else {
      hide Step, Consecutive;
      PortsAreConsecutive(c, names, port, env, slots, seens, n - 1);
      PortsStep(c, PassAfter(c, Start(names, port, env), slots, seens, n - 1), n - 1, slots[n - 1], seens[n - 1], port);
    }
  }

  lemma PortsStep(c: Config, p: Pass, i: nat, slot: Slot, seen: Seen, port: nat)
    requires Consecutive(p.forwards, port, p.nextPort)
    ensures var q := Step(c, p, i, slot, seen); Consecutive(q.forwards, port, q.nextPort)
  {
    hide Consecutive, Addr, PortOf;
    if Keeps(c, p, slot) {
      var remote := Addr(seen.remoteHost, PortOf(slot.entry.creds));
      ConsecutiveMore(p.forwards, port, p.nextPort, remote, WantsTLS(c, slot, seen));
    }
  }

  /** The `j`-th forward and rewritten map belong to the `j`-th kept slot: the
      forward leads to the address the lookups gave, the map to the forward, and
      there is a TLS port exactly for a redis binding that is TLS when the
      program is a client without TLS. */
  ghost predicate Fits(c: Config, slots: seq<Slot>, seens: seq<Seen>, p: Pass, j: nat)
    requires j < |p.kept| == |p.forwards|
  {
    var i, fwd := p.kept[j], p.forwards[j];
    && i < |slots| && i < |seens| && i in p.after && slots[i].serviceType in c.providers
    && fwd.remoteAddr == Addr(seens[i].remoteHost, PortOf(slots[i].entry.creds))
    && p.after[i] == CredsAfter(slots[i], seens[i], fwd)
    && (fwd.tlsTunnelPort != 0 <==> WantsTLS(c, slots[i], seens[i]))
  }

  ghost predicate AllFit(c: Config, slots: seq<Slot>, seens: seq<Seen>, p: Pass, n: nat) {
    |p.kept| == |p.forwards| && forall j | 0 <= j < |p.kept| :: p.kept[j] < n && Fits(c, slots, seens, p, j)
  }

  lemma {:induction false} ForwardsFit(c: Config, names: seq<string>, port: nat, env: map<string, string>,
                                       slots: seq<Slot>, seens: seq<Seen>, n: nat)
    requires n <= |slots| && n <= |seens|
    ensures AllFit(c, slots, seens, PassAfter(c, Start(names, port, env), slots, seens, n), n)
  {
    if n > 0 {
      ForwardsFit(c, names, port, env, slots, seens, n - 1);
      PortsAreConsecutive(c, names, port, env, slots, seens, n - 1);
      FitStep(c, slots, seens, PassAfter(c, Start(names, port, env), slots, seens, n - 1), n);
    }
  }

  lemma FitStep(c: Config, slots: seq<Slot>, seens: seq<Seen>, p: Pass, n: nat)
    requires 0 < n <= |slots| && n <= |seens|
    requires AllFit(c, slots, seens, p, n - 1) && p.nextPort >= 0
    ensures AllFit(c, slots, seens, Step(c, p, n - 1, slots[n - 1], seens[n - 1]), n)
  {
    if Keeps(c, p, slots[n - 1]) {
      var fwd := ForwardOf(c, p.nextPort, slots[n - 1], seens[n - 1]);
      FitMore(c, slots, seens, p, Step(c, p, n - 1, slots[n - 1], seens[n - 1]), n, fwd);
    } else {
      FitSame(c, slots, seens, p, Step(c, p, n - 1, slots[n - 1], seens[n - 1]), n);
    }
  }

  lemma FitSame(c: Config, slots: seq<Slot>, seens: seq<Seen>, p: Pass, q: Pass, n: nat)
    requires n > 0 && AllFit(c, slots, seens, p, n - 1)
    requires q.kept == p.kept && q.forwards == p.forwards && q.after == p.after
    ensures AllFit(c, slots, seens, q, n)
  {
    forall j | 0 <= j < |q.kept| ensures q.kept[j] < n && Fits(c, slots, seens, q, j) {
      assert Fits(c, slots, seens, p, j);
    }
  }

  lemma FitMore(c: Config, slots: seq<Slot>, seens: seq<Seen>, p: Pass, q: Pass, n: nat, fwd: ForwardAddrs)
    requires 0 < n <= |slots| && n <= |seens| && AllFit(c, slots, seens, p, n - 1)
    requires slots[n - 1].serviceType in c.providers
    requires q.kept == p.kept + [n - 1] && q.forwards == p.forwards + [fwd]
    requires q.after == p.after[n - 1 := CredsAfter(slots[n - 1], seens[n - 1], fwd)]
    requires fwd.remoteAddr == Addr(seens[n - 1].remoteHost, PortOf(slots[n - 1].entry.creds))
    requires fwd.tlsTunnelPort != 0 <==> WantsTLS(c, slots[n - 1], seens[n - 1])
    ensures AllFit(c, slots, seens, q, n)
  {
    hide CredsAfter, WantsTLS, Addr, PortOf;
    forall j | 0 <= j < |q.kept| ensures q.kept[j] < n && Fits(c, slots, seens, q, j) {
      if j < |p.kept| {
        assert p.kept[j] < n - 1 && Fits(c, slots, seens, p, j);
        assert q.kept[j] == p.kept[j] && q.forwards[j] == p.forwards[j];
      } else {
        assert q.kept[j] == n - 1 && q.forwards[j] == fwd;
      }
    }
  }

  // ---------------------------------------------------------- the program

  /** `InitEnv` ran for the first kept binding whose provider knows the program,
      and for no other. */
  ghost predicate FirstClient(c: Config, slots: seq<Slot>, p: Pass)
  {
    && (forall i: nat | i in p.kept :: i < |slots| && slots[i].serviceType in c.providers)
    && match p.client
       case None => forall i: nat | i in p.kept :: !IsClientOf(c, slots[i].serviceType)
       case Some(f) => f in p.kept && IsClientOf(c, slots[f].serviceType)
                       && forall i: nat | i in p.kept && i < f :: !IsClientOf(c, slots[i].serviceType)
  }

  /** What `InitEnv` added to the environment the pass started with. */
  ghost predicate EnvIs(p: Pass, seens: seq<Seen>, env: map<string, string>, n: nat) {
    match p.client
    case None => p.env == env
    case Some(f) => f < n && f < |seens| && p.env == env + seens[f].writes
  }

  lemma {:induction false} ClientIsFirst(c: Config, names: seq<string>, port: int, env: map<string, string>,
                                         slots: seq<Slot>, seens: seq<Seen>, n: nat)
    requires n <= |slots| && n <= |seens|
    ensures var p := PassAfter(c, Start(names, port, env), slots, seens, n);
      FirstClient(c, slots, p) && (forall i: nat | i in p.kept :: i < n) && EnvIs(p, seens, env, n)
  {
    if n > 0 {
      ClientIsFirst(c, names, port, env, slots, seens, n - 1);
      ClientStep(c, slots, PassAfter(c, Start(names, port, env), slots, seens, n - 1), seens, env, n);
    }
  }

  lemma ClientStep(c: Config, slots: seq<Slot>, p: Pass, seens: seq<Seen>, env: map<string, string>, n: nat)
    requires 0 < n <= |slots| && n <= |seens|
    requires FirstClient(c, slots, p) && (forall i: nat | i in p.kept :: i < n - 1) && EnvIs(p, seens, env, n - 1)
    ensures var q := Step(c, p, n - 1, slots[n - 1], seens[n - 1]);
      FirstClient(c, slots, q) && (forall i: nat | i in q.kept :: i < n) && EnvIs(q, seens, env, n)
  {
    if Keeps(c, p, slots[n - 1]) {
      ClientMore(c, slots, p, Step(c, p, n - 1, slots[n - 1], seens[n - 1]), seens, env, n);
    }
  }

  lemma ClientMore(c: Config, slots: seq<Slot>, p: Pass, q: Pass, seens: seq<Seen>, env: map<string, string>, n: nat)
    requires 0 < n <= |slots| && n <= |seens|
    requires FirstClient(c, slots, p) && (forall i: nat | i in p.kept :: i < n - 1) && EnvIs(p, seens, env, n - 1)
    requires q.kept == p.kept + [n - 1] && slots[n - 1].serviceType in c.providers
    requires if p.client.None? && IsClientOf(c, slots[n - 1].serviceType)
             then q.client == Some(n - 1) && q.env == p.env + seens[n - 1].writes
             else q.client == p.client && q.env == p.env
    ensures FirstClient(c, slots, q) && (forall i: nat | i in q.kept :: i < n) && EnvIs(q, seens, env, n)
  {
    assert forall i: nat :: i in q.kept <==> i in p.kept || i == n - 1;
  }

  // ---------------------------------------------------------------- outcome

  predicate Occurs(slots: seq<Slot>, x: string) {
    exists i | 0 <= i < |slots| :: slots[i].entry.instanceName == x
  }

  /** The first occurrence of a requested name, under a type without provider. */
  predicate UnknownAt(c: Config, names: seq<string>, slots: seq<Slot>, i: nat) {
    FirstAt(slots, names, i) && slots[i].serviceType !in c.providers
  }

  /** The first occurrence of a requested name, whose provider knows the program. */
  predicate ClientAt(c: Config, names: seq<string>, slots: seq<Slot>, i: nat) {
    FirstAt(slots, names, i) && slots[i].serviceType in c.providers && IsClientOf(c, slots[i].serviceType)
  }

  predicate NoUnknownBefore(c: Config, names: seq<string>, slots: seq<Slot>, n: nat) {
    forall i: nat | i < n :: !UnknownAt(c, names, slots, i)
  }

  function NotOccurring(names: seq<string>, slots: seq<Slot>): set<string> {
    set x | x in names && !Occurs(slots, x)
  }

  /** The outcome, said without the pass. */
  ghost predicate Classified(c: Config, names: seq<string>, slots: seq<Slot>, o: Outcome) {
    if !NoUnknownBefore(c, names, slots, |slots|) then
      exists i: nat :: UnknownAt(c, names, slots, i) && NoUnknownBefore(c, names, slots, i)
                       && o == UnknownType(slots[i].entry.instanceName, slots[i].serviceType)
    else if NotOccurring(names, slots) != {} then
      o == MissingBindings(NotOccurring(names, slots))
    else if c.program != "" && !(exists i: nat :: ClientAt(c, names, slots, i)) then
      o == if ValidTypes(c) == {} then UnknownProgram(c.program) else WrongServiceType(c.program, ValidTypes(c))
    else o == Planned
  }

  /** Which outcome a pass has depends only on the bindings, names, providers
      and program, with unknown types before missing bindings before the program. */
  lemma Classification(c: Config, names: seq<string>, port: int, env: map<string, string>,
                       slots: seq<Slot>, seens: seq<Seen>)
    requires |seens| == |slots|
    ensures var p := PassAfter(c, Start(names, port, env), slots, seens, |slots|);
      (p.stopped.Some? ==> p.stopped.value < |slots|) && Classified(c, names, slots, OutcomeOf(c, slots, p))
  {
    var p := PassAfter(c, Start(names, port, env), slots, seens, |slots|);
    Selection(c, names, port, env, slots, seens, |slots|);
    ClientIsFirst(c, names, port, env, slots, seens, |slots|);
    ClassifiedPass(c, names, slots, p);
  }

  lemma ClassifiedPass(c: Config, names: seq<string>, slots: seq<Slot>, p: Pass)
    requires Selected(c, names, slots, p, |slots|) && Waits(c, names, slots, p, |slots|) && FirstClient(c, slots, p)
    ensures Classified(c, names, slots, OutcomeOf(c, slots, p))
  {
    match p.stopped {
      case Some(f) =>
        assert UnknownAt(c, names, slots, f);
        assert forall i: nat | i < f && FirstAt(slots, names, i) :: i in p.kept;
        assert NoUnknownBefore(c, names, slots, f);
      case None =>
        assert forall i: nat :: FirstAt(slots, names, i) <==> i in p.kept;
        assert NoUnknownBefore(c, names, slots, |slots|);
        assert forall x :: Occurs(slots, x) <==> !Unseen(slots, x, |slots|);
        assert p.waiting == NotOccurring(names, slots);
        if p.client.Some? { assert ClientAt(c, names, slots, p.client.value); }
    }
  }
}
