/** The bookkeeping between the objects `initServiceBindings` writes to and the
    pass it computes. */
module Visiting {
  import opened GoStrings
  import opened ServiceCredentials
  import opened Outside
  import opened Services
  import opened Plan
  import opened PlanFacts
  import opened Vcap

  /** What stays fixed while the bindings are visited; `before` are the calls
      made until then. */
  datatype Visit = Visit(c: Config, names: seq<string>, port: int, env: map<string, string>,
                         forwards: seq<ForwardAddrs>, before: seq<Event>,
                         original: Listing, keys: seq<string>, refs: seq<Ref>, slots: seq<Slot>)

  /** The visit goes through the listing in sorted order, and the slots describe it. */
  ghost predicate Wellformed(v: Visit) {
    && StrictlySorted(v.keys) && (forall k :: k in v.keys <==> k in v.original)
    && v.refs == Refs(v.keys, v.original) && Unshared(v.refs)
    && |v.slots| == |v.refs|
    && (forall i | 0 <= i < |v.refs| ::
          v.slots[i].serviceType == v.refs[i].serviceType && v.slots[i].entry.name == v.refs[i].service.name
          && v.slots[i].entry.instanceName == v.refs[i].service.instanceName)
  }

  /** The pass after as many bindings as have answers. */
  function PassOf(v: Visit, seens: seq<Seen>): Pass
    requires |seens| <= |v.slots|
  {
    PassAfter(v.c, Start(v.names, v.port, v.env), v.slots, seens, |seens|)
  }

  ghost predicate SeenOf(v: Visit, seens: seq<Seen>)
    requires |seens| <= |v.slots|
  {
    AllSeen(v.c, Start(v.names, v.port, v.env), v.slots, seens, |seens|)
  }

  lemma OneMore(v: Visit, seens: seq<Seen>, seen: Seen)
    requires |seens| < |v.slots| && SeenOf(v, seens)
    requires MaySee(v.c, PassOf(v, seens), v.slots[|seens|], seen)
    ensures SeenOf(v, seens + [seen])
    ensures PassOf(v, seens + [seen]) == Step(v.c, PassOf(v, seens), |seens|, v.slots[|seens|], seen)
  {
    PassPrefix(v.c, Start(v.names, v.port, v.env), v.slots, seens, [seen], |seens|);
  }

  /** What the pass writes to the application object. */
  datatype Fields = Fields(nextPort: int, forwards: seq<ForwardAddrs>, env: map<string, string>, config: Config)

  /** The credentials behind the bindings. */
  function CredsAt(refs: seq<Ref>): (cs: seq<Bindings>)
    reads set i | 0 <= i < |refs| :: refs[i].service.credentials
    ensures |cs| == |refs| && forall i | 0 <= i < |refs| :: cs[i] == refs[i].service.credentials.entries
  {
    if refs == [] then []
    else CredsAt(refs[..|refs| - 1]) + [refs[|refs| - 1].service.credentials.entries]
  }

  predicate SameKinds(a: Config, b: Config) {
    a.program == b.program && a.providers.Keys == b.providers.Keys
    && forall t | t in a.providers :: a.providers[t].kind == b.providers[t].kind
  }

  /** What was written is what the pass has reached; `files` are the calls made. */
  ghost predicate Matches(v: Visit, p: Pass, w: Fields, creds: seq<Bindings>, files: seq<Event>) {
    && w.nextPort == p.nextPort && w.forwards == v.forwards + p.forwards && w.env == p.env
    && |creds| == |v.slots|
    && (forall i | 0 <= i < |v.slots| :: creds[i] == (if i in p.after then p.after[i] else v.slots[i].entry.creds))
    && SameKinds(w.config, v.c) && Configured(v, p, w.config, files)
    && (p.client.None? ==> w.config == v.c && p.env == v.env)
  }

  /** All that planning did outside: my.cnf was written for the binding the program
      was set up for, if its type is MySQL's, and MYSQL_HOME is set exactly if that
      worked. The directory is then the provider's, and otherwise none was made. */
  ghost predicate Configured(v: Visit, p: Pass, config: Config, files: seq<Event>) {
    if p.client.None? then files == [] && SameDirs(config, v.c)
    else
      var i := p.client.value;
      && i < |v.slots| && i in p.after
      && v.slots[i].serviceType in v.c.providers && v.slots[i].serviceType in config.providers
      && Wrote(v.c, config, v.slots[i].serviceType, p.after[i], v.env, p.env, files)
  }

  predicate SameDirs(a: Config, b: Config) {
    forall t | t in a.providers && t in b.providers :: a.providers[t].workDir == b.providers[t].workDir
  }

  /** What the provider of this type did for these credentials: the state went from
      `a` to `b`, the environment from `env` to `more`. */
  ghost predicate Wrote(a: Config, b: Config, t: string, m: Bindings, env: map<string, string>,
                        more: map<string, string>, files: seq<Event>)
    requires t in a.providers && t in b.providers
  {
    if a.providers[t].kind == MySQL && a.providers[t].serviceCnt == 0 then
      exists ok :: WritesMyCnf(m, files, b.providers[t].workDir, ok)
                   && more == if ok then env + map["MYSQL_HOME" := b.providers[t].workDir] else env
    else files == [] && SameDirs(a, b)
  }

  /** The fields went from `w` to `x`, and the credentials of a kept binding to
      `after`, in the way the answers `seen` call for; `files` are the calls made. */
  ghost predicate Handles(c: Config, slot: Slot, seen: Seen, satisfied: bool, w: Fields, x: Fields, after: Bindings,
                          files: seq<Event>)
    requires slot.serviceType in c.providers
  {
    var fwd := ForwardOf(c, w.nextPort, slot, seen);
    && MayGet(slot.entry.creds, HOST_KEYS, seen.remoteHost) && MayGet(slot.entry.creds, HOST_KEYS, seen.oldHost)
    && (slot.serviceType == "redis" ==> MayBeTLSService(c.providers[slot.serviceType].kind, slot.entry.creds, seen.tls))
    && x.nextPort == w.nextPort + (if WantsTLS(c, slot, seen) then 2 else 1)
    && x.forwards == w.forwards + [fwd] && after == CredsAfter(slot, seen, fwd) && SameKinds(x.config, w.config)
    && if !satisfied && IsClientOf(c, slot.serviceType)
       then x.env == w.env + seen.writes && slot.serviceType in w.config.providers
            && MayInitEnv(w.config.providers[slot.serviceType], after, seen.writes)
            && slot.serviceType in x.config.providers
            && Wrote(w.config, x.config, slot.serviceType, after, w.env, x.env, files)
       else x.env == w.env && x.config == w.config && files == []
  }

  lemma MatchesKinds(v: Visit, p: Pass, w: Fields, creds: seq<Bindings>, files: seq<Event>)
    requires Matches(v, p, w, creds, files)
    ensures w.config.providers.Keys == v.c.providers.Keys && w.config.program == v.c.program
  {
  }

  /** What is known of a binding that has not been kept. */
  lemma MatchesSlot(v: Visit, p: Pass, w: Fields, creds: seq<Bindings>, files: seq<Event>, i: nat)
    requires Matches(v, p, w, creds, files) && i < |v.slots| && i !in p.after
    ensures |creds| == |v.slots| && creds[i] == v.slots[i].entry.creds && SameKinds(w.config, v.c)
  {
  }

  /** Nothing changes while no binding is kept. */
  lemma MatchesStill(v: Visit, p: Pass, q: Pass, w: Fields, creds: seq<Bindings>, files: seq<Event>)
    requires Matches(v, p, w, creds, files) && q == p.(waiting := q.waiting, stopped := q.stopped)
    ensures Matches(v, q, w, creds, files)
  {
    hide Wrote;
  }

  /** Handling a kept binding is a step of the pass. */
  lemma HandledIsStep(v: Visit, p: Pass, i: nat, seen: Seen, w: Fields, x: Fields, before: seq<Bindings>,
                      after: seq<Bindings>, files: seq<Event>, more: seq<Event>)
    requires i < |v.slots| == |before| == |after| && Keeps(v.c, p, v.slots[i]) && i !in p.after
    requires Matches(v, p, w, before, files) && after == before[i := after[i]]
    requires Handles(v.c, v.slots[i], seen, p.client.Some?, w, x, after[i], more)
    ensures MaySee(v.c, p, v.slots[i], seen)
    ensures Matches(v, Step(v.c, p, i, v.slots[i], seen), x, after, files + more)
  {
    hide Rewrite, MayGet, MayBeTLSService, MayInitEnv, KnownClients, NonTLSClients, Addr, PortOf, WritesMyCnf;
    assert more == [] ==> files + more == files;
    assert files == [] ==> files + more == more;
  }

  const NOTHING_SEEN: Seen := Seen("", false, "", map[])

  /** A pass that has ended stays as it is, whatever would come after. */
  lemma {:induction false} Padded(v: Visit, seens: seq<Seen>) returns (full: seq<Seen>)
    requires |seens| <= |v.slots| && SeenOf(v, seens) && PassOf(v, seens).stopped.Some?
    ensures |full| == |v.slots| && SeenOf(v, full) && PassOf(v, full) == PassOf(v, seens)
    decreases |v.slots| - |seens|
  {
    if |seens| == |v.slots| {
      full := seens;
    } else {
      OneMore(v, seens, NOTHING_SEEN);
      full := Padded(v, seens + [NOTHING_SEEN]);
    }
  }

  lemma KeptIsKeepable(v: Visit, seens: seq<Seen>)
    requires |seens| <= |v.slots|
    ensures Increasing(PassOf(v, seens).kept) && Keepable(v.slots, PassOf(v, seens), PassOf(v, seens).kept)
  {
    var p := PassOf(v, seens);
    Selection(v.c, v.names, v.port, v.env, v.slots, seens, |seens|);
    assert forall j | 0 <= j < |p.kept| :: p.kept[j] in p.kept;
  }

  /** After the last type the pruned listing has exactly the types and bindings kept. */
  lemma PrunedAll(v: Visit, env: Environment, p: Pass)
    requires SetUp(v, env) && Keepable(v.slots, p, p.kept) && Increasing(p.kept)
    ensures PrunedTo(v, p, |v.keys|).Keys == FinalServices(v.slots, p).Keys
    ensures forall t | t in PrunedTo(v, p, |v.keys|) ::
      && Keepable(v.slots, p, KeptOf(v.slots, p.kept, t))
      && PrunedTo(v, p, |v.keys|)[t] == At(v.refs, KeptOf(v.slots, p.kept, t))
      && FinalServices(v.slots, p)[t] == KeptEntries(v.slots, p, KeptOf(v.slots, p.kept, t))
  {
    hide Refs, Less, StrictlySorted, Unshared, KeptOf, TypesOf, Slots;
    assert v.keys[..|v.keys|] == v.keys;
    KeptTypesAreListed(v, env, p.kept);
    forall t ensures t in TypesOf(v.slots, p.kept) <==> KeptOf(v.slots, p.kept, t) != [] {
      TypeIsKept(v.slots, p.kept, t);
    }
  }

  lemma KeptTypesAreListed(v: Visit, env: Environment, kept: seq<nat>)
    requires SetUp(v, env) && InRange(v.slots, kept)
    ensures forall t | t in TypesOf(v.slots, kept) :: t in v.keys
  {
    hide Refs, Less, StrictlySorted;
    SlotsAreOrdered(v.keys, env);
  }

  lemma TypeIsKept(slots: seq<Slot>, kept: seq<nat>, t: string)
    requires InRange(slots, kept) && Increasing(kept)
    ensures t in TypesOf(slots, kept) <==> KeptOf(slots, kept, t) != []
  {
    KeptOfIsOrdered(slots, kept, t);
    var ks := KeptOf(slots, kept, t);
    if ks != [] { assert ks[0] in ks; }
    if t in TypesOf(slots, kept) {
      var j :| 0 <= j < |kept| && slots[kept[j]].serviceType == t;
      assert kept[j] in kept && kept[j] in ks;
    }
  }

  lemma CredsMade(m: Listing, made: set<Credentials>)
    requires forall t | t in m :: CredsOf(m[t]) <= made
    ensures CredsIn(m) <= made
  {
    forall t, i | t in m && 0 <= i < |m[t]| ensures m[t][i].credentials in made {
      assert m[t][i].credentials in CredsOf(m[t]);
    }
  }

  method SortedKeys(keys: set<string>) returns (sorted: seq<string>)
    ensures StrictlySorted(sorted) && forall k :: k in sorted <==> k in keys
    ensures forall i, j | 0 <= i < j < |sorted| :: SortsBefore(sorted[i], sorted[j])
  {
    sorted := [];
    var rest := keys;
    while rest != {}
      invariant rest <= keys && StrictlySorted(sorted) && forall k :: k in sorted <==> k in keys && k !in rest
    {
      var k :| k in rest;
      sorted := Insert(sorted, k);
      rest := rest - {k};
    }
    forall i, j | 0 <= i < j < |sorted| ensures SortsBefore(sorted[i], sorted[j]) { LessIff(sorted[i], sorted[j]); }
  }

  /** `k` put in its place. */
  function Insert(sorted: seq<string>, k: string): (more: seq<string>)
    requires StrictlySorted(sorted) && k !in sorted
    ensures StrictlySorted(more) && forall x :: x in more <==> x in sorted || x == k
  {
    if sorted == [] then [k]
    else if Less(k, sorted[0]) then
      InsertInFront(sorted, k);
      [k] + sorted
    else
      LessTotal(k, sorted[0]);
      assert sorted[0] in sorted;
      InsertBehind(sorted, Insert(sorted[1..], k), k);
      [sorted[0]] + Insert(sorted[1..], k)
  }

  lemma InsertInFront(sorted: seq<string>, k: string)
    requires StrictlySorted(sorted) && sorted != [] && Less(k, sorted[0])
    ensures StrictlySorted([k] + sorted)
  {
    forall j | 0 < j < |sorted| ensures Less(k, sorted[j]) {
      LessTransitive(k, sorted[0], sorted[j]);
    }
  }

  lemma InsertBehind(sorted: seq<string>, tail: seq<string>, k: string)
    requires StrictlySorted(sorted) && sorted != [] && Less(sorted[0], k) && StrictlySorted(tail)
    requires forall x :: x in tail <==> x in sorted[1..] || x == k
    ensures StrictlySorted([sorted[0]] + tail)
    ensures forall x :: x in [sorted[0]] + tail <==> x in sorted || x == k
  {
    assert forall x :: x in sorted <==> x == sorted[0] || x in sorted[1..];
    forall j | 0 <= j < |tail| ensures Less(sorted[0], tail[j]) {
      assert tail[j] in tail;
    }
  }

  datatype Verdict = Skip | Keep | Unknown

  /** The loop's variables are those of a pass that goes on. */
  predicate AsPass(p: Pass, waiting: set<string>, satisfied: bool) {
    p.stopped.None? && waiting == p.waiting && satisfied == p.client.Some?
  }

  predicate AllOfType(v: Visit, ks: seq<nat>, serviceType: string) {
    forall j | 0 <= j < |ks| :: ks[j] < |v.slots| && ks[j] < |v.refs| && v.slots[ks[j]].serviceType == serviceType
  }

  /** The pass ended at a binding of this name and type. */
  predicate StoppedAt(v: Visit, p: Pass, instanceName: string, serviceType: string) {
    && p.stopped.Some? && p.stopped.value < |v.slots|
    && v.slots[p.stopped.value].entry.instanceName == instanceName
    && v.slots[p.stopped.value].serviceType == serviceType
  }

  /** The visit starts from these fields. */
  predicate From(v: Visit, names: seq<string>, w: Fields, services: Listing) {
    && v.names == names && v.original == services
    && v.c == w.config && v.port == w.nextPort && v.env == w.env && v.forwards == w.forwards
  }

  /** The visit goes over these bindings. */
  ghost predicate SetUp(v: Visit, env: Environment) {
    && Wellformed(v) && (forall k :: k in v.keys <==> k in env)
    && (forall k | k in v.keys :: |env[k]| == |v.original[k]|)
    && v.slots == Slots(v.keys, env)
  }

  /** The listing when the first `n` types have been visited. */
  function PrunedTo(v: Visit, p: Pass, n: nat): Listing
    requires n <= |v.keys| && |v.refs| == |v.slots| && InRange(v.slots, p.kept)
  {
    map t | t in v.original && (t in v.keys[..n] ==> KeptOf(v.slots, p.kept, t) != []) ::
      if t in v.keys[..n] then At(v.refs, KeptOf(v.slots, p.kept, t)) else v.original[t]
  }

  function CredsIn(m: Listing): set<Credentials> {
    set t, i | t in m && 0 <= i < |m[t]| :: m[t][i].credentials
  }

  lemma {:induction false} SameLengths(keys: seq<string>, m: Listing, env: Environment)
    requires forall k | k in keys :: k in m && k in env && |env[k]| == |m[k]|
    ensures |Slots(keys, env)| == |Refs(keys, m)|
  {
    if keys != [] { SameLengths(keys[..|keys| - 1], m, env); }
  }

  /** Where the bindings of the `n`-th type stand in visiting order. */
  lemma Offsets(v: Visit, env: Environment, n: nat)
    requires SetUp(v, env) && n < |v.keys|
    ensures v.keys[n] in v.original && v.keys[n] !in v.keys[..n]
    ensures var at, list := |Slots(v.keys[..n], env)|, v.original[v.keys[n]];
      && |Slots(v.keys[..n + 1], env)| == at + |list| <= |v.slots|
      && forall j | 0 <= j < |list| :: v.refs[at + j] == Ref(v.keys[n], list[j])
  {
    hide Slots, Refs, Less;
    SlotsAppend(v.keys, env, n);
    SameLengths(v.keys, v.original, env);
    SameLengths(v.keys[..n], v.original, env);
    SameLengths(v.keys[..n + 1], v.original, env);
    RefsAppend(v.keys, v.original, n);
    RefsPrefix(v.keys, v.original, n + 1);
    LessIrreflexive(v.keys[n]);
    var front := Refs(v.keys[..n + 1], v.original);
    assert forall i | 0 <= i < |front| :: v.refs[i] == front[i];
  }

  /** Before a type is visited nothing of it has been kept. */
  lemma NoneKeptYet(v: Visit, env: Environment, p: Pass, n: nat)
    requires SetUp(v, env) && n < |v.keys|
    requires InRange(v.slots, p.kept)
    requires forall i: nat | i in p.kept :: i < |Slots(v.keys[..n], env)|
    ensures KeptOf(v.slots, p.kept, v.keys[n]) == []
  {
    var front := v.keys[..n];
    SlotsAreOrdered(front, env);
    Offsets(v, env, n);
    SlotsPrefix(v.keys, env, n);
    assert forall j | 0 <= j < |p.kept| :: p.kept[j] in p.kept;
    assert forall i | 0 <= i < |Slots(front, env)| :: v.slots[i].serviceType in front;
    KeptOfAbsent(v.slots, p.kept, v.keys[n]);
  }

  lemma {:induction false} KeptOfAbsent(slots: seq<Slot>, kept: seq<nat>, t: string)
    requires InRange(slots, kept) && forall j | 0 <= j < |kept| :: slots[kept[j]].serviceType != t
    ensures KeptOf(slots, kept, t) == []
  {
    if kept != [] { KeptOfAbsent(slots, kept[..|kept| - 1], t); }
  }

  lemma {:induction false} SlotsPrefix(keys: seq<string>, env: Environment, n: nat)
    requires n <= |keys| && forall k | k in keys :: k in env
    ensures |Slots(keys[..n], env)| <= |Slots(keys, env)|
    ensures forall i | 0 <= i < |Slots(keys[..n], env)| :: Slots(keys, env)[i] == Slots(keys[..n], env)[i]
    decreases |keys|
  {
    if n < |keys| {
      SlotsPrefix(keys[..|keys| - 1], env, n);
      assert keys[..|keys| - 1][..n] == keys[..n];
    } else {
      assert keys[..n] == keys;
    }
  }

  lemma {:induction false} KeptOfConcat(slots: seq<Slot>, a: seq<nat>, b: seq<nat>, t: string)
    requires InRange(slots, a) && InRange(slots, b)
    ensures InRange(slots, a + b) && KeptOf(slots, a + b, t) == KeptOf(slots, a, t) + KeptOf(slots, b, t)
  {
    if b == [] {
      assert a + b == a;
    } else {
      KeptOfConcat(slots, a, b[..|b| - 1], t);
      assert (a + b)[..|a + b| - 1] == a + b[..|b| - 1];
    }
  }

  lemma {:induction false} KeptOfOneType(v: Visit, ks: seq<nat>, key: string, t: string)
    requires |v.refs| == |v.slots| && AllOfType(v, ks, key)
    ensures InRange(v.slots, ks) && KeptOf(v.slots, ks, t) == if t == key then ks else []
  {
    if ks != [] {
      var init, last := ks[..|ks| - 1], ks[|ks| - 1];
      assert ks == init + [last] && v.slots[last].serviceType == key;
      assert AllOfType(v, init, key);
      hide AllOfType;
      KeptOfOneType(v, init, key, t);
    }
  }

  /** Visiting the `n`-th type leaves the earlier ones as they were pruned and
      cuts this one down to what was kept, or drops it. */
  lemma PrunedOn(v: Visit, p: Pass, q: Pass, n: nat, more: seq<nat>)
    requires Wellformed(v) && n < |v.keys| && v.keys[n] !in v.keys[..n]
    requires InRange(v.slots, p.kept) && KeptOf(v.slots, p.kept, v.keys[n]) == []
    requires q.kept == p.kept + more && AllOfType(v, more, v.keys[n])
    ensures InRange(v.slots, q.kept) && PrunedTo(v, q, n) == PrunedTo(v, p, n)
    ensures var key, m := v.keys[n], PrunedTo(v, p, n);
      PrunedTo(v, q, n + 1) == if more == [] then m - {key} else m[key := At(v.refs, more)]
  {
    forall t ensures KeptOf(v.slots, q.kept, t) == if t == v.keys[n] then more else KeptOf(v.slots, p.kept, t) {
      KeptOfConcat(v.slots, p.kept, more, t);
      KeptOfOneType(v, more, v.keys[n], t);
    }
    KeptOfConcat(v.slots, p.kept, more, "");
    KeptOfOneType(v, more, v.keys[n], "");
    PruneOne(v, p, q, n, more);
  }

  lemma PruneOne(v: Visit, p: Pass, q: Pass, n: nat, more: seq<nat>)
    requires Wellformed(v) && n < |v.keys| && v.keys[n] !in v.keys[..n]
    requires InRange(v.slots, p.kept) && InRange(v.slots, q.kept) && AllOfType(v, more, v.keys[n])
    requires forall t :: KeptOf(v.slots, q.kept, t) == if t == v.keys[n] then more else KeptOf(v.slots, p.kept, t)
    ensures PrunedTo(v, q, n) == PrunedTo(v, p, n)
    ensures var key, m := v.keys[n], PrunedTo(v, p, n);
      PrunedTo(v, q, n + 1) == if more == [] then m - {key} else m[key := At(v.refs, more)]
  {
    hide KeptOf, Refs, Less, At;
    assert forall t :: t in v.keys[..n + 1] <==> t in v.keys[..n] || t == v.keys[n];
    assert v.keys[n] in v.keys;
    PruneValues(v, p, q, n, more);
    PruneSame(v, p, q, n);
  }

  lemma PruneSame(v: Visit, p: Pass, q: Pass, n: nat)
    requires n < |v.keys| && |v.refs| == |v.slots| && InRange(v.slots, p.kept) && InRange(v.slots, q.kept)
    requires forall t | t in v.keys[..n] :: KeptOf(v.slots, q.kept, t) == KeptOf(v.slots, p.kept, t)
    ensures PrunedTo(v, q, n) == PrunedTo(v, p, n)
  {
    hide KeptOf, At;
  }

  lemma PruneAt(v: Visit, p: Pass, q: Pass, n: nat, more: seq<nat>, t: string)
    requires n < |v.keys| && v.keys[n] !in v.keys[..n] && |v.refs| == |v.slots| && v.keys[n] in v.original
    requires InRange(v.slots, p.kept) && InRange(v.slots, q.kept) && AllOfType(v, more, v.keys[n])
    requires KeptOf(v.slots, q.kept, t) == if t == v.keys[n] then more else KeptOf(v.slots, p.kept, t)
    ensures t in PrunedTo(v, q, n + 1) <==> if t == v.keys[n] then more != [] else t in PrunedTo(v, p, n)
    ensures t in PrunedTo(v, q, n + 1) ==>
      PrunedTo(v, q, n + 1)[t] == if t == v.keys[n] then At(v.refs, more) else PrunedTo(v, p, n)[t]
  {
    hide KeptOf, At, AllOfType;
    InOneMore(v.keys, n, t);
  }

  lemma InOneMore<T>(s: seq<T>, n: nat, t: T)
    requires n < |s|
    ensures t in s[..n + 1] <==> t in s[..n] || t == s[n]
  {
    assert s[..n + 1] == s[..n] + [s[n]];
  }

  lemma PruneValues(v: Visit, p: Pass, q: Pass, n: nat, more: seq<nat>)
    requires n < |v.keys| && v.keys[n] !in v.keys[..n] && |v.refs| == |v.slots| && v.keys[n] in v.original
    requires InRange(v.slots, p.kept) && InRange(v.slots, q.kept) && AllOfType(v, more, v.keys[n])
    requires forall t :: KeptOf(v.slots, q.kept, t) == if t == v.keys[n] then more else KeptOf(v.slots, p.kept, t)
    ensures var key, m := v.keys[n], PrunedTo(v, p, n);
      PrunedTo(v, q, n + 1) == if more == [] then m - {key} else m[key := At(v.refs, more)]
  {
    hide KeptOf, At, PrunedTo;
    var key, m, now := v.keys[n], PrunedTo(v, p, n), PrunedTo(v, q, n + 1);
    forall t
      ensures t in now <==> if t == key then more != [] else t in m
      ensures t in now ==> now[t] == if t == key then At(v.refs, more) else m[t]
    {
      PruneAt(v, p, q, n, more, t);
    }
  }

  lemma Unpruned(v: Visit, p: Pass, n: nat)
    requires Wellformed(v) && n < |v.keys| && v.keys[n] !in v.keys[..n] && InRange(v.slots, p.kept)
    ensures v.keys[n] in PrunedTo(v, p, n) && PrunedTo(v, p, n)[v.keys[n]] == v.original[v.keys[n]]
    ensures CredsOf(v.original[v.keys[n]]) <= CredsIn(v.original)
  {
    assert v.keys[n] in v.keys && v.keys[n] in v.original;
  }

  /** Only slots already visited have been kept. */
  lemma NotYetKept(v: Visit, seens: seq<Seen>)
    requires |seens| <= |v.slots|
    ensures |seens| !in PassOf(v, seens).after
    ensures InRange(v.slots, PassOf(v, seens).kept)
    ensures forall i: nat | i in PassOf(v, seens).kept :: i < |seens|
  {
    Selection(v.c, v.names, v.port, v.env, v.slots, seens, |seens|);
    var p := PassOf(v, seens);
    assert forall j | 0 <= j < |p.kept| :: p.kept[j] in p.kept;
  }

  lemma StepKept(c: Config, p: Pass, i: nat, slot: Slot, seen: Seen)
    requires Keeps(c, p, slot)
    ensures var q, fwd := Step(c, p, i, slot, seen), ForwardOf(c, p.nextPort, slot, seen);
      && q.forwards == p.forwards + [fwd] && q.kept == p.kept + [i] && q.stopped.None?
      && q.after == p.after[i := CredsAfter(slot, seen, fwd)]
      && q.nextPort == p.nextPort + (if WantsTLS(c, slot, seen) then 2 else 1)
      && q.waiting == p.waiting - {slot.entry.instanceName}
      && if p.client.None? && IsClientOf(c, slot.serviceType)
         then q.client == Some(i) && q.env == p.env + seen.writes else q.client == p.client && q.env == p.env
  {
  }

  /** What planning leaves in the application object. */
  datatype Layout = Layout(nextPort: int, forwards: seq<ForwardAddrs>, env: map<string, string>,
                           services: Environment, config: Config)

  /** The layout is that of a successful pass over the fetched bindings `env`. */
  ghost predicate IsPlan(l: Layout, marshal: Environment -> string, v: Visit, env: Environment, seens: seq<Seen>) {
    && SetUp(v, env) && |seens| == |v.slots| && SeenOf(v, seens) && PassOf(v, seens).stopped.None?
    && Keepable(v.slots, PassOf(v, seens), PassOf(v, seens).kept)
    && OutcomeOf(v.c, v.slots, PassOf(v, seens)) == Outcome.Planned
    && l.nextPort == PassOf(v, seens).nextPort && l.forwards == v.forwards + PassOf(v, seens).forwards
    && l.services == FinalServices(v.slots, PassOf(v, seens))
    && l.env == PassOf(v, seens).env["VCAP_SERVICES" := marshal(l.services)]
    && SameKinds(l.config, v.c)
  }
}
