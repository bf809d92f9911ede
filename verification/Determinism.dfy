/** Which parts of the plan depend on the order Go visits its maps in: what is
    kept and how the pass ends never do; for the forwards, and for the rewritten
    credentials, there is an exact condition on the listed bindings. */
module Determinism {
  import opened GoStrings
  import opened ServiceCredentials
  import opened Outside
  import opened Services
  import opened Plan
  import opened PlanFacts

  /** All that a pass is given. */
  datatype Job = Job(c: Config, names: seq<string>, port: nat, env: map<string, string>, slots: seq<Slot>)

  /** Answers the lookups of a whole pass can give. */
  ghost predicate Valid(job: Job, seens: seq<Seen>) {
    |seens| == |job.slots| && AllSeen(job.c, Start(job.names, job.port, job.env), job.slots, seens, |seens|)
  }

  /** The pass after the first `n` bindings. */
  function After(job: Job, seens: seq<Seen>, n: nat): Pass
    requires n <= |job.slots| && n <= |seens|
  {
    PassAfter(job.c, Start(job.names, job.port, job.env), job.slots, seens, n)
  }

  function End(job: Job, seens: seq<Seen>): Pass
    requires |seens| == |job.slots|
  {
    After(job, seens, |seens|)
  }

  // ------------------------------------------------- what never depends on it

  /** The same bindings are kept, for the same names, with the same end. */
  predicate SameChoices(p: Pass, q: Pass) {
    p.waiting == q.waiting && p.kept == q.kept && p.client == q.client && p.stopped == q.stopped
  }

  lemma {:induction false} ChoicesAreFixed(job: Job, a: seq<Seen>, b: seq<Seen>, n: nat)
    requires n <= |job.slots| && n <= |a| && n <= |b|
    ensures SameChoices(After(job, a, n), After(job, b, n))
  {
    if n > 0 {
      ChoicesAreFixed(job, a, b, n - 1);
      StepChooses(job.c, After(job, a, n - 1), After(job, b, n - 1), n - 1, job.slots[n - 1], a[n - 1], b[n - 1]);
    }
  }

  lemma StepChooses(c: Config, p: Pass, q: Pass, i: nat, slot: Slot, a: Seen, b: Seen)
    requires SameChoices(p, q)
    ensures SameChoices(Step(c, p, i, slot, a), Step(c, q, i, slot, b))
  {
    hide ForwardOf, CredsAfter, WantsTLS, KnownClients;
  }

  /** Whatever the lookups answer, a pass ends in the same way. */
  lemma OutcomeIsFixed(job: Job, a: seq<Seen>, b: seq<Seen>)
    requires |a| == |b| == |job.slots|
    ensures SameChoices(End(job, a), End(job, b))
    ensures var p := End(job, a); p.stopped.Some? ==> p.stopped.value < |job.slots|
    ensures OutcomeOf(job.c, job.slots, End(job, a)) == OutcomeOf(job.c, job.slots, End(job, b))
  {
    ChoicesAreFixed(job, a, b, |a|);
    Classification(job.c, job.names, job.port, job.env, job.slots, a);
  }

  /** A slot that every pass keeps: the first occurrence of a requested name, with
      no first occurrence of an unknown type up to it. */
  predicate KeptAt(c: Config, names: seq<string>, slots: seq<Slot>, i: nat) {
    FirstAt(slots, names, i) && NoUnknownBefore(c, names, slots, i + 1)
  }

  lemma KeptIff(job: Job, seens: seq<Seen>, n: nat, i: nat)
    requires n <= |job.slots| && n <= |seens|
    ensures i in After(job, seens, n).kept <==> i < n && KeptAt(job.c, job.names, job.slots, i)
  {
    hide PassAfter, FirstAt;
    var p := After(job, seens, n);
    Selection(job.c, job.names, job.port, job.env, job.slots, seens, n);
    if p.stopped.Some? {
      assert UnknownAt(job.c, job.names, job.slots, p.stopped.value);
    }
  }

  lemma StepKeepsIff(c: Config, p: Pass, i: nat, slot: Slot, seen: Seen)
    ensures i in Step(c, p, i, slot, seen).kept <==> Keeps(c, p, slot) || i in p.kept
  {
    hide ForwardOf, CredsAfter, WantsTLS, KnownClients;
  }

  /** Every pass keeps the same bindings when it comes to them. */
  lemma KeepsIff(job: Job, seens: seq<Seen>, i: nat)
    requires i < |job.slots| && i < |seens|
    ensures Keeps(job.c, After(job, seens, i), job.slots[i]) <==> KeptAt(job.c, job.names, job.slots, i)
  {
    hide Keeps, Step, FirstAt, KeptAt;
    KeptIff(job, seens, i, i);
    KeptIff(job, seens, i + 1, i);
    StepKeepsIff(job.c, After(job, seens, i), i, job.slots[i], seens[i]);
  }

  // ---------------------------------------------------- what shapes the plan

  /** The TLS answer for this binding matters. */
  predicate TLSMatters(c: Config, slot: Slot) {
    && slot.serviceType == "redis" && slot.serviceType in c.providers
    && c.program in NonTLSClients(c.providers[slot.serviceType].kind)
  }

  ghost predicate UniqueTLS(kind: Kind, m: Bindings) {
    forall a, b | MayBeTLSService(kind, m, a) && MayBeTLSService(kind, m, b) :: a == b
  }

  ghost predicate FixedTLS(c: Config, slot: Slot) {
    TLSMatters(c, slot) ==> UniqueTLS(c.providers[slot.serviceType].kind, slot.entry.creds)
  }

  /** The lookups that shape the forward and the rewritten credentials of a binding
      have one answer. */
  ghost predicate FixedAnswers(c: Config, slot: Slot) {
    UniqueAnswer(slot.entry.creds, HOST_KEYS) && FixedTLS(c, slot)
  }

  ghost predicate AllFixed(job: Job) {
    forall i: nat | KeptAt(job.c, job.names, job.slots, i) :: FixedAnswers(job.c, job.slots[i])
  }

  /** Everything but the environment is the same. */
  predicate SamePlan(p: Pass, q: Pass) {
    && p.waiting == q.waiting && p.kept == q.kept && p.forwards == q.forwards && p.after == q.after
    && p.nextPort == q.nextPort && p.client == q.client && p.stopped == q.stopped
  }

  /** The answers lead to the same forward and the same rewritten credentials. */
  predicate Alike(c: Config, slot: Slot, a: Seen, b: Seen)
    requires slot.serviceType in c.providers
  {
    a.remoteHost == b.remoteHost && a.oldHost == b.oldHost && WantsTLS(c, slot, a) == WantsTLS(c, slot, b)
  }

  lemma SeenAlike(c: Config, p: Pass, q: Pass, slot: Slot, a: Seen, b: Seen)
    requires FixedAnswers(c, slot) && MaySee(c, p, slot, a) && MaySee(c, q, slot, b)
    requires Keeps(c, p, slot) && Keeps(c, q, slot)
    ensures Alike(c, slot, a, b)
  {
    hide MayGet, MayBeTLSService, MayInitEnv, NonTLSClients;
  }

  lemma SameStep(c: Config, p: Pass, q: Pass, i: nat, slot: Slot, a: Seen, b: Seen)
    requires SamePlan(p, q) && (Keeps(c, p, slot) ==> Alike(c, slot, a, b))
    ensures SamePlan(Step(c, p, i, slot, a), Step(c, q, i, slot, b))
  {
    hide Rewrite, Addr, PortOf, NonTLSClients, KnownClients, WantsTLS;
  }

  lemma {:induction false} PassIsFixed(job: Job, a: seq<Seen>, b: seq<Seen>, n: nat)
    requires AllFixed(job) && n <= |job.slots| && n <= |a| && n <= |b|
    requires AllSeen(job.c, Start(job.names, job.port, job.env), job.slots, a, n)
    requires AllSeen(job.c, Start(job.names, job.port, job.env), job.slots, b, n)
    ensures SamePlan(After(job, a, n), After(job, b, n))
  {
    if n > 0 {
      hide Step, MaySee, FixedAnswers, KeptAt, SamePlan, Alike, AllFixed, PassAfter, AllSeen;
      PassSteps(job, a, n);
      PassSteps(job, b, n);
      PassIsFixed(job, a, b, n - 1);
      NextIsFixed(job, a, b, n);
      SameStep(job.c, After(job, a, n - 1), After(job, b, n - 1), n - 1, job.slots[n - 1], a[n - 1], b[n - 1]);
    }
  }

  lemma PassSteps(job: Job, seens: seq<Seen>, n: nat)
    requires 0 < n <= |job.slots| && n <= |seens|
    requires AllSeen(job.c, Start(job.names, job.port, job.env), job.slots, seens, n)
    ensures AllSeen(job.c, Start(job.names, job.port, job.env), job.slots, seens, n - 1)
    ensures MaySee(job.c, After(job, seens, n - 1), job.slots[n - 1], seens[n - 1])
    ensures After(job, seens, n) == Step(job.c, After(job, seens, n - 1), n - 1, job.slots[n - 1], seens[n - 1])
  {
    hide Step, MaySee;
  }

  lemma NextIsFixed(job: Job, a: seq<Seen>, b: seq<Seen>, n: nat)
    requires AllFixed(job) && 0 < n <= |job.slots| && n <= |a| && n <= |b|
    requires MaySee(job.c, After(job, a, n - 1), job.slots[n - 1], a[n - 1])
    requires MaySee(job.c, After(job, b, n - 1), job.slots[n - 1], b[n - 1])
    requires SamePlan(After(job, a, n - 1), After(job, b, n - 1))
    ensures Keeps(job.c, After(job, a, n - 1), job.slots[n - 1]) ==> Alike(job.c, job.slots[n - 1], a[n - 1], b[n - 1])
  {
    hide MaySee, FixedAnswers, KeptAt, Alike, PassAfter;
    var p, q, slot := After(job, a, n - 1), After(job, b, n - 1), job.slots[n - 1];
    if Keeps(job.c, p, slot) {
      KeepsIff(job, a, n - 1);
      SeenAlike(job.c, p, q, slot, a[n - 1], b[n - 1]);
    }
  }

  // ------------------------------------------------ answers that can be given

  lemma SomeTLS(m: Bindings) returns (enabled: bool)
    ensures MayBeTLS(m, enabled)
  {
    hide MayGet, Contains, ToLower;
    var flag := GetExists(m, TLS_KEYS);
    var uri := GetExists(m, URI_KEYS);
    var jdbc := GetExists(m, JDBC_URI_KEYS);
    enabled := ParseBool(flag) || AsksForSSL(uri) || AsksForSSL(jdbc);
  }

  lemma SomeServiceTLS(kind: Kind, m: Bindings) returns (enabled: bool)
    ensures MayBeTLSService(kind, m, enabled)
  {
    hide MayGet, MayBeTLS;
    enabled := SomeTLS(m);
    if kind == InfluxDB {
      enabled := false;
    } else if kind == Redis {
      var uri := GetExists(m, URI_KEYS);
      enabled := enabled || HasPrefix(uri, "rediss");
    }
  }

  lemma SomeEnv(p: ProviderState, m: Bindings) returns (writes: map<string, string>)
    ensures MayInitEnv(p, m, writes)
  {
    hide MayGet, Decimal, PortOf;
    var user := GetExists(m, USERNAME_KEYS);
    var password := GetExists(m, PASSWORD_KEYS);
    match p.kind {
      case InfluxDB =>
        writes := InfluxVars(user, password);
      case Postgres =>
        var database := GetExists(m, DATABASE_KEYS);
        var host := GetExists(m, HOST_KEYS);
        writes := if p.serviceCnt > 0 then map[] else PostgresVars(database, host, PortOf(m), user, password);
      case _ =>
        writes := map[];
    }
  }

  /** An answer for the next binding, with this host and this TLS answer. */
  lemma SomeSeen(c: Config, p: Pass, slot: Slot, host: string, tls: bool) returns (seen: Seen)
    requires Keeps(c, p, slot) ==> MayGet(slot.entry.creds, HOST_KEYS, host)
    requires Keeps(c, p, slot) ==> MayBeTLSService(c.providers[slot.serviceType].kind, slot.entry.creds, tls)
    ensures MaySee(c, p, slot, seen) && seen.remoteHost == seen.oldHost == host && seen.tls == tls
  {
    hide MayGet, MayBeTLSService, MayInitEnv, CredsAfter, KnownClients;
    seen := Seen(host, tls, host, map[]);
    if Keeps(c, p, slot) {
      var after := CredsAfter(slot, seen, ForwardOf(c, p.nextPort, slot, seen));
      var writes := SomeEnv(c.providers[slot.serviceType], after);
      seen := seen.(writes := writes);
      SameAfter(c, p.nextPort, slot, Seen(host, tls, host, map[]), seen);
    }
  }

  /** What `InitEnv` sets has no part in the forward or the rewrite. */
  lemma SameAfter(c: Config, port: int, slot: Slot, a: Seen, b: Seen)
    requires slot.serviceType in c.providers && a.(writes := b.writes) == b
    ensures CredsAfter(slot, a, ForwardOf(c, port, slot, a)) == CredsAfter(slot, b, ForwardOf(c, port, slot, b))
    ensures ForwardOf(c, port, slot, a) == ForwardOf(c, port, slot, b)
  {
    hide Rewrite, Addr, PortOf, NonTLSClients;
  }

  /** Answers for the first bindings. */
  ghost predicate ValidSoFar(job: Job, seens: seq<Seen>) {
    |seens| <= |job.slots| && AllSeen(job.c, Start(job.names, job.port, job.env), job.slots, seens, |seens|)
  }

  lemma ValidMore(job: Job, seens: seq<Seen>, seen: Seen)
    requires ValidSoFar(job, seens) && |seens| < |job.slots|
    requires MaySee(job.c, After(job, seens, |seens|), job.slots[|seens|], seen)
    ensures ValidSoFar(job, seens + [seen])
  {
    PassPrefix(job.c, Start(job.names, job.port, job.env), job.slots, seens, [seen], |seens|);
  }

  /** Whatever was answered so far, the pass can go on to its end. */
  lemma {:induction false} Completed(job: Job, seens: seq<Seen>) returns (full: seq<Seen>)
    requires ValidSoFar(job, seens)
    ensures Valid(job, full) && seens <= full
    decreases |job.slots| - |seens|
  {
    hide MaySee, AllSeen, MayGet, MayBeTLSService;
    full := seens;
    if |seens| < |job.slots| {
      var seen := AnySeen(job, seens);
      ValidMore(job, seens, seen);
      full := Completed(job, seens + [seen]);
      assert seens <= seens + [seen];
    }
  }

  lemma AnySeen(job: Job, seens: seq<Seen>) returns (seen: Seen)
    requires |seens| < |job.slots|
    ensures MaySee(job.c, After(job, seens, |seens|), job.slots[|seens|], seen)
  {
    hide MaySee, MayGet, MayBeTLSService;
    var slot := job.slots[|seens|];
    var host := GetExists(slot.entry.creds, HOST_KEYS);
    var tls := false;
    if slot.serviceType in job.c.providers {
      tls := SomeServiceTLS(job.c.providers[slot.serviceType].kind, slot.entry.creds);
    }
    seen := SomeSeen(job.c, After(job, seens, |seens|), slot, host, tls);
  }

  lemma {:induction false} Begun(job: Job, n: nat) returns (seens: seq<Seen>)
    requires n <= |job.slots|
    ensures ValidSoFar(job, seens) && |seens| == n
  {
    seens := [];
    if n > 0 {
      hide MaySee, AllSeen;
      seens := Begun(job, n - 1);
      var seen := AnySeen(job, seens);
      ValidMore(job, seens, seen);
      seens := seens + [seen];
    }
  }

  /** A pass that has begun can go on with any answer for the next binding. */
  lemma Resumed(job: Job, before: seq<Seen>, seen: Seen) returns (seens: seq<Seen>)
    requires ValidSoFar(job, before) && |before| < |job.slots|
    requires MaySee(job.c, After(job, before, |before|), job.slots[|before|], seen)
    ensures Valid(job, seens) && seens[|before|] == seen
    ensures After(job, seens, |before|) == After(job, before, |before|)
  {
    hide MaySee, AllSeen, PassAfter;
    ValidMore(job, before, seen);
    seens := Completed(job, before + [seen]);
    assert seens[|before|] == (before + [seen])[|before|];
    assert seens == before + seens[|before|..];
    PassPrefix(job.c, Start(job.names, job.port, job.env), job.slots, before, seens[|before|..], |before|);
  }

  /** So a whole pass can meet any answer the lookups of one binding can give. */
  lemma Answered(job: Job, before: seq<Seen>, host: string, tls: bool) returns (seens: seq<Seen>)
    requires ValidSoFar(job, before) && |before| < |job.slots|
    requires MayGet(job.slots[|before|].entry.creds, HOST_KEYS, host)
    requires job.slots[|before|].serviceType in job.c.providers
    requires MayBeTLSService(job.c.providers[job.slots[|before|].serviceType].kind,
                             job.slots[|before|].entry.creds, tls)
    ensures Valid(job, seens) && After(job, seens, |before|) == After(job, before, |before|)
    ensures seens[|before|].remoteHost == seens[|before|].oldHost == host && seens[|before|].tls == tls
  {
    hide MaySee, AllSeen, MayGet, MayBeTLSService, PassAfter;
    var seen := SomeSeen(job.c, After(job, before, |before|), job.slots[|before|], host, tls);
    seens := Resumed(job, before, seen);
  }

  // ------------------------------------------------------------- the theorem

  ghost predicate ForwardsAgree(job: Job) {
    forall a, b | Valid(job, a) && Valid(job, b) :: End(job, a).forwards == End(job, b).forwards
  }

  ghost predicate PlansAgree(job: Job) {
    forall a, b | Valid(job, a) && Valid(job, b) :: SamePlan(End(job, a), End(job, b))
  }

  /** Equal forwards come from equal hosts and equal TLS decisions. */
  lemma ForwardTells(job: Job, i: nat, a: seq<Seen>, b: seq<Seen>)
    requires |a| == |b| == |job.slots| && End(job, a).forwards == End(job, b).forwards
    requires i < |job.slots| && KeptAt(job.c, job.names, job.slots, i)
    ensures a[i].remoteHost == b[i].remoteHost && job.slots[i].serviceType in job.c.providers
    ensures WantsTLS(job.c, job.slots[i], a[i]) == WantsTLS(job.c, job.slots[i], b[i])
  {
    hide PassAfter, FirstAt, KeptAt, WantsTLS, Addr;
    var p, q := End(job, a), End(job, b);
    KeptIff(job, a, |a|, i);
    ChoicesAreFixed(job, a, b, |a|);
    ForwardsFit(job.c, job.names, job.port, job.env, job.slots, a, |a|);
    ForwardsFit(job.c, job.names, job.port, job.env, job.slots, b, |b|);
    var j :| 0 <= j < |p.kept| && p.kept[j] == i;
    assert Fits(job.c, job.slots, a, p, j) && Fits(job.c, job.slots, b, q, j);
    AddrInjective(a[i].remoteHost, b[i].remoteHost, PortOf(job.slots[i].entry.creds));
  }

  lemma AgreeingIsFixed(job: Job, i: nat)
    requires ForwardsAgree(job) && KeptAt(job.c, job.names, job.slots, i)
    ensures FixedAnswers(job.c, job.slots[i])
  {
    hide MayGet, MayBeTLSService, AllSeen, End, KeptAt, NonTLSClients, PassAfter;
    KeptHasProvider(job.c, job.names, job.slots, i);
    var before := Begun(job, i);
    var slot := job.slots[i];
    var kind, m := job.c.providers[slot.serviceType].kind, slot.entry.creds;
    var host := GetExists(m, HOST_KEYS);
    var tls := SomeServiceTLS(kind, m);
    forall x, y | MayGet(m, HOST_KEYS, x) && MayGet(m, HOST_KEYS, y) ensures x == y {
      var a := Answered(job, before, x, tls);
      var b := Answered(job, before, y, tls);
      ForwardTells(job, i, a, b);
    }
    if TLSMatters(job.c, slot) {
      forall x, y | MayBeTLSService(kind, m, x) && MayBeTLSService(kind, m, y) ensures x == y {
        var a := Answered(job, before, host, x);
        var b := Answered(job, before, host, y);
        ForwardTells(job, i, a, b);
      }
    }
  }

  lemma KeptHasProvider(c: Config, names: seq<string>, slots: seq<Slot>, i: nat)
    requires KeptAt(c, names, slots, i)
    ensures i < |slots| && slots[i].serviceType in c.providers
  {
    assert !UnknownAt(c, names, slots, i);
  }

  /** The forwards, and with them everything but the environment, are the same in
      all passes exactly if for every kept binding the host lookup has one answer,
      and the TLS answer is one where it matters. */
  lemma PlanIsFixedIff(job: Job)
    ensures AllFixed(job) <==> PlansAgree(job)
    ensures AllFixed(job) <==> ForwardsAgree(job)
  {
    hide PassAfter, AllSeen, KeptAt, FixedAnswers;
    if AllFixed(job) {
      forall a, b | Valid(job, a) && Valid(job, b) ensures SamePlan(End(job, a), End(job, b)) {
        PassIsFixed(job, a, b, |a|);
      }
    } else {
      FixedIfAgreeing(job);
    }
  }

  lemma FixedIfAgreeing(job: Job)
    ensures ForwardsAgree(job) ==> AllFixed(job)
  {
    if ForwardsAgree(job) {
      forall i: nat | KeptAt(job.c, job.names, job.slots, i) ensures FixedAnswers(job.c, job.slots[i]) {
        AgreeingIsFixed(job, i);
      }
    }
  }

  // ------------------------------------------------ the rewritten credentials

  lemma {:induction false} AfterStays(job: Job, seens: seq<Seen>, m: nat, n: nat, i: nat)
    requires m <= n <= |job.slots| && n <= |seens| && i in After(job, seens, m).after
    ensures i in After(job, seens, n).after && After(job, seens, n).after[i] == After(job, seens, m).after[i]
  {
    hide Step, After;
    if m < n {
      AfterStays(job, seens, m, n - 1, i);
      AfterNext(job, seens, n);
      AfterIsBehind(job, seens, n - 1, i);
      StepAfter(job.c, After(job, seens, n - 1), n - 1, job.slots[n - 1], seens[n - 1], i);
    }
  }

  lemma AfterNext(job: Job, seens: seq<Seen>, n: nat)
    requires 0 < n <= |job.slots| && n <= |seens|
    ensures After(job, seens, n) == Step(job.c, After(job, seens, n - 1), n - 1, job.slots[n - 1], seens[n - 1])
  {
    hide Step;
  }

  lemma AfterIsBehind(job: Job, seens: seq<Seen>, n: nat, i: nat)
    requires n <= |job.slots| && n <= |seens| && i in After(job, seens, n).after
    ensures i < n
  {
    hide PassAfter, FirstAt;
    Selection(job.c, job.names, job.port, job.env, job.slots, seens, n);
    KeptIff(job, seens, n, i);
  }

  lemma StepAfter(c: Config, p: Pass, n: nat, slot: Slot, seen: Seen, i: nat)
    requires i in p.after && i != n
    ensures i in Step(c, p, n, slot, seen).after && Step(c, p, n, slot, seen).after[i] == p.after[i]
  {
    hide ForwardOf, CredsAfter, WantsTLS, KnownClients;
  }

  lemma StepRewrites(c: Config, p: Pass, n: nat, slot: Slot, seen: Seen)
    requires Keeps(c, p, slot)
    ensures n in Step(c, p, n, slot, seen).after
    ensures Step(c, p, n, slot, seen).after[n] == CredsAfter(slot, seen, ForwardOf(c, p.nextPort, slot, seen))
  {
    hide ForwardOf, CredsAfter, WantsTLS, KnownClients;
  }

  lemma {:induction false} SeenBefore(job: Job, s: seq<Seen>, i: nat, n: nat)
    requires i <= n <= |job.slots| && n <= |s|
    requires AllSeen(job.c, Start(job.names, job.port, job.env), job.slots, s, n)
    ensures AllSeen(job.c, Start(job.names, job.port, job.env), job.slots, s, i)
    ensures i < n ==> MaySee(job.c, After(job, s, i), job.slots[i], s[i])
    decreases n
  {
    if i < n { SeenBefore(job, s, i, n - 1); }
  }

  /** With an answer to one question only, the binding gets a TLS tunnel exactly if
      that answer is yes. */
  ghost predicate WithTLS(c: Config, slot: Slot) {
    TLSMatters(c, slot) && MayBeTLSService(c.providers[slot.serviceType].kind, slot.entry.creds, true)
  }

  lemma TLSDecision(c: Config, p: Pass, slot: Slot, seen: Seen)
    requires MaySee(c, p, slot, seen) && Keeps(c, p, slot) && FixedTLS(c, slot)
    ensures WantsTLS(c, slot, seen) <==> WithTLS(c, slot)
  {
    hide MayGet, MayBeTLSService, MayInitEnv, NonTLSClients;
  }

  /** The port that is next when the pass comes to binding `n`, if TLS is settled. */
  ghost function PortAt(job: Job, n: nat): (port: int)
    requires n <= |job.slots|
    ensures port >= job.port
  {
    if n == 0 then job.port
    else
      PortAt(job, n - 1) + (if !KeptAt(job.c, job.names, job.slots, n - 1) then 0
                            else if WithTLS(job.c, job.slots[n - 1]) then 2 else 1)
  }

  /** The port the credentials of binding `i` are rewritten to then. */
  ghost function ConnectAt(job: Job, i: nat): int
    requires i < |job.slots|
  {
    PortAt(job, i) + if WithTLS(job.c, job.slots[i]) then 1 else 0
  }

  ghost predicate AllFixedTLS(job: Job) {
    forall i: nat | KeptAt(job.c, job.names, job.slots, i) :: FixedTLS(job.c, job.slots[i])
  }

  lemma {:induction false} PortIs(job: Job, s: seq<Seen>, n: nat)
    requires n <= |job.slots| && n <= |s| && AllFixedTLS(job)
    requires AllSeen(job.c, Start(job.names, job.port, job.env), job.slots, s, n)
    ensures After(job, s, n).nextPort == PortAt(job, n)
  {
    if n > 0 {
      hide Step, MaySee, Keeps, FixedTLS, WithTLS, WantsTLS, AllSeen, PassAfter, NoUnknownBefore;
      PassSteps(job, s, n);
      PortIs(job, s, n - 1);
      var p := After(job, s, n - 1);
      KeepsIff(job, s, n - 1);
      NextPort(job.c, p, n - 1, job.slots[n - 1], s[n - 1]);
      if Keeps(job.c, p, job.slots[n - 1]) { TLSDecision(job.c, p, job.slots[n - 1], s[n - 1]); }
    }
  }

  lemma NextPort(c: Config, p: Pass, i: nat, slot: Slot, seen: Seen)
    ensures Step(c, p, i, slot, seen).nextPort ==
      p.nextPort + (if !Keeps(c, p, slot) then 0 else if WantsTLS(c, slot, seen) then 2 else 1)
  {
    hide ForwardOf, CredsAfter, WantsTLS, KnownClients;
  }

  /** What a whole pass makes of the credentials of a kept binding. */
  lemma RewrittenAt(job: Job, s: seq<Seen>, i: nat)
    requires |s| == |job.slots| && KeptAt(job.c, job.names, job.slots, i)
    ensures job.slots[i].serviceType in job.c.providers && i in End(job, s).after
    ensures End(job, s).after[i] ==
      CredsAfter(job.slots[i], s[i], ForwardOf(job.c, After(job, s, i).nextPort, job.slots[i], s[i]))
  {
    hide Step, CredsAfter, ForwardOf, NoUnknownBefore;
    KeptHasProvider(job.c, job.names, job.slots, i);
    KeepsIff(job, s, i);
    StepRewrites(job.c, After(job, s, i), i, job.slots[i], s[i]);
    AfterStays(job, s, i + 1, |s|, i);
  }

  lemma RewriteIs(job: Job, s: seq<Seen>, i: nat)
    requires AllFixedTLS(job) && Valid(job, s) && KeptAt(job.c, job.names, job.slots, i)
    ensures MayGet(job.slots[i].entry.creds, HOST_KEYS, s[i].oldHost) && i in End(job, s).after
    ensures var m := job.slots[i].entry.creds;
      End(job, s).after[i] == Redirected(m, s[i].oldHost, ConnectAt(job, i))
  {
    hide Rewrite, Addr, PortOf, MayGet, NoUnknownBefore, PassAfter, WithTLS, WantsTLS, MayInitEnv, FixedTLS, AllSeen;
    RewrittenAt(job, s, i);
    SeenBefore(job, s, i, |s|);
    KeepsIff(job, s, i);
    PortIs(job, s, i);
    TLSDecision(job.c, After(job, s, i), job.slots[i], s[i]);
  }

  /** Whichever of its hosts is looked for, the same credentials come out. */
  ghost predicate OneRewrite(m: Bindings, port: int) {
    forall g, h | MayGet(m, HOST_KEYS, g) && MayGet(m, HOST_KEYS, h) :: Redirected(m, g, port) == Redirected(m, h, port)
  }

  ghost predicate RewritesFixed(job: Job) {
    AllFixedTLS(job)
    && forall i: nat | KeptAt(job.c, job.names, job.slots, i) :: OneRewrite(job.slots[i].entry.creds, ConnectAt(job, i))
  }

  ghost predicate RewritesAgree(job: Job) {
    forall a, b | Valid(job, a) && Valid(job, b) :: End(job, a).after == End(job, b).after
  }

  lemma SameRewrites(job: Job, a: seq<Seen>, b: seq<Seen>)
    requires RewritesFixed(job) && Valid(job, a) && Valid(job, b)
    ensures End(job, a).after == End(job, b).after
  {
    hide Redirected, MayGet, KeptAt, PassAfter, AllSeen, FirstAt, FixedTLS, ConnectAt;
    var p, q := End(job, a), End(job, b);
    Selection(job.c, job.names, job.port, job.env, job.slots, a, |a|);
    Selection(job.c, job.names, job.port, job.env, job.slots, b, |b|);
    forall i: nat ensures (i in p.after <==> i in q.after) && (i in p.after ==> p.after[i] == q.after[i]) {
      KeptIff(job, a, |a|, i);
      KeptIff(job, b, |b|, i);
      if i in p.after {
        RewriteIs(job, a, i);
        RewriteIs(job, b, i);
        assert OneRewrite(job.slots[i].entry.creds, ConnectAt(job, i));
      }
    }
  }

  lemma PortTells(m: Bindings, a: string, b: string, p: int, q: int)
    requires a != "" && b != "" && Rewrite(m, a, LOOPBACK, p) == Rewrite(m, b, LOOPBACK, q)
    ensures p == q
  {
    assert Rewrite(m, a, LOOPBACK, p)[PORT_KEY] == Str(Decimal(p));
    assert Rewrite(m, b, LOOPBACK, q)[PORT_KEY] == Str(Decimal(q));
    DecimalInjective(p, q);
  }

  /** The TLS answer shows in the rewritten port. */
  lemma TLSTells(job: Job, i: nat, a: seq<Seen>, b: seq<Seen>)
    requires |a| == |b| == |job.slots| && KeptAt(job.c, job.names, job.slots, i) && TLSMatters(job.c, job.slots[i])
    requires After(job, a, i) == After(job, b, i) && After(job, a, i).nextPort >= 0
    requires End(job, a).after == End(job, b).after
    ensures a[i].tls == b[i].tls
  {
    hide Rewrite, Addr, PortOf, NoUnknownBefore, PassAfter, NonTLSClients;
    RewrittenAt(job, a, i);
    RewrittenAt(job, b, i);
    var m, port := job.slots[i].entry.creds, After(job, a, i).nextPort;
    PortTells(m, Addr(a[i].oldHost, PortOf(m)), Addr(b[i].oldHost, PortOf(m)),
              ForwardOf(job.c, port, job.slots[i], a[i]).ConnectPort(),
              ForwardOf(job.c, port, job.slots[i], b[i]).ConnectPort());
  }

  lemma AgreeingTLSIsFixed(job: Job, i: nat)
    requires RewritesAgree(job) && KeptAt(job.c, job.names, job.slots, i)
    ensures FixedTLS(job.c, job.slots[i])
  {
    hide MayGet, MayBeTLSService, AllSeen, End, NoUnknownBefore, NonTLSClients, PassAfter, TLSMatters;
    if TLSMatters(job.c, job.slots[i]) {
      KeptHasProvider(job.c, job.names, job.slots, i);
      var before := Begun(job, i);
      var kind, m := job.c.providers[job.slots[i].serviceType].kind, job.slots[i].entry.creds;
      var host := GetExists(m, HOST_KEYS);
      PortsAreConsecutive(job.c, job.names, job.port, job.env, job.slots, before, i);
      forall x, y | MayBeTLSService(kind, m, x) && MayBeTLSService(kind, m, y) ensures x == y {
        var a := Answered(job, before, host, x);
        var b := Answered(job, before, host, y);
        TLSTells(job, i, a, b);
      }
    }
  }

  lemma AgreeingHasOneRewrite(job: Job, i: nat)
    requires RewritesAgree(job) && AllFixedTLS(job) && KeptAt(job.c, job.names, job.slots, i)
    ensures OneRewrite(job.slots[i].entry.creds, ConnectAt(job, i))
  {
    hide MayGet, MayBeTLSService, AllSeen, End, KeptAt, PassAfter, Redirected, ConnectAt, AllFixedTLS;
    KeptHasProvider(job.c, job.names, job.slots, i);
    var before := Begun(job, i);
    var kind, m := job.c.providers[job.slots[i].serviceType].kind, job.slots[i].entry.creds;
    var tls := SomeServiceTLS(kind, m);
    forall g, h | MayGet(m, HOST_KEYS, g) && MayGet(m, HOST_KEYS, h)
      ensures Redirected(m, g, ConnectAt(job, i)) == Redirected(m, h, ConnectAt(job, i))
    {
      var a := Answered(job, before, g, tls);
      var b := Answered(job, before, h, tls);
      RewriteIs(job, a, i);
      RewriteIs(job, b, i);
    }
  }

  /** The rewritten credentials are the same in all passes exactly if for every
      kept binding the TLS answer is one where it matters, and its credentials
      rewritten to its port come out the same whichever of its hosts is looked for. */
  lemma RewritesAreFixedIff(job: Job)
    ensures RewritesAgree(job) <==> RewritesFixed(job)
  {
    hide AllSeen, NoUnknownBefore, PassAfter, FixedTLS, OneRewrite, ConnectAt;
    if RewritesFixed(job) {
      forall a, b | Valid(job, a) && Valid(job, b) ensures End(job, a).after == End(job, b).after {
        SameRewrites(job, a, b);
      }
    }
    if RewritesAgree(job) {
      forall i: nat | KeptAt(job.c, job.names, job.slots, i) ensures FixedTLS(job.c, job.slots[i]) {
        AgreeingTLSIsFixed(job, i);
      }
      forall i: nat | KeptAt(job.c, job.names, job.slots, i)
        ensures OneRewrite(job.slots[i].entry.creds, ConnectAt(job, i))
      {
        AgreeingHasOneRewrite(job, i);
      }
    }
  }

  /** A plan that is fixed has fixed rewrites. */
  lemma FixedPlanHasFixedRewrites(job: Job)
    requires AllFixed(job)
    ensures RewritesFixed(job)
  {
    hide NoUnknownBefore, ConnectAt, FixedTLS, MayGet, Redirected;
    assert forall i: nat | KeptAt(job.c, job.names, job.slots, i) :: FixedAnswers(job.c, job.slots[i]);
  }

  lemma DeterminedHasOneRewrite(m: Bindings, port: int)
    requires SetAddressDetermined(m)
    ensures OneRewrite(m, port)
  {
    hide MayGet, Rewrite, Addr;
    forall g, h | MayGet(m, HOST_KEYS, g) && MayGet(m, HOST_KEYS, h)
      ensures Redirected(m, g, port) == Redirected(m, h, port)
    {
      assert MaySetAddress(m, Redirected(m, g, port), LOOPBACK, port);
      assert MaySetAddress(m, Redirected(m, h, port), LOOPBACK, port);
    }
  }

  /** With several host keys in a kept binding two passes can plan different forwards,
      even where the credentials always come out the same. */
  lemma AmbiguousHostShows() returns (job: Job, a: seq<Seen>, b: seq<Seen>)
    ensures |job.slots| == 1 && job.slots[0].entry.creds == map["host" := Str("a"), "Host" := Str("b")]
    ensures Valid(job, a) && Valid(job, b) && End(job, a).forwards != End(job, b).forwards
    ensures RewritesAgree(job)
  {
    hide MayGet, AllSeen, PassAfter, Redirected;
    var m := TwoAnswers();
    var c := Config("", map["postgres" := ProviderState(Postgres, 0, "")]);
    job := Job(c, ["x"], 1, map[], [Slot("postgres", Entry("", "x", m))]);
    assert KeptAt(job.c, job.names, job.slots, 0);
    assert !FixedAnswers(job.c, job.slots[0]);
    PlanIsFixedIff(job);
    a, b :| Valid(job, a) && Valid(job, b) && End(job, a).forwards != End(job, b).forwards;
    HostsOnly(m);
    DeterminedHasOneRewrite(m, 1);
    RewritesAreFixedIff(job);
  }

  lemma HostsOnly(m: Bindings)
    requires m.Keys == {"host", "Host"}
    ensures SetAddressDetermined(m)
  {
    hide MayGet;
    assert EqualFold("host", "host") && EqualFold("Host", "host");
    SetAddressIsDeterminedIff(m);
  }

  // ------------------------------------------------- sufficient: no ambiguity

  lemma TLSIsDetermined(m: Bindings, a: bool, b: bool)
    requires Coherent(m) && MayBeTLS(m, a) && MayBeTLS(m, b)
    ensures a == b
  {
    hide MayGet, Coherent, Contains, ToLower, EqualFold;
    var f, u, j :| MayGet(m, TLS_KEYS, f) && MayGet(m, URI_KEYS, u) && MayGet(m, JDBC_URI_KEYS, j)
                   && a == (ParseBool(f) || AsksForSSL(u) || AsksForSSL(j));
    var f', u', j' :| MayGet(m, TLS_KEYS, f') && MayGet(m, URI_KEYS, u') && MayGet(m, JDBC_URI_KEYS, j')
                   && b == (ParseBool(f') || AsksForSSL(u') || AsksForSSL(j'));
    CoherentGetIsUnique(m, TLS_KEYS, f, f');
    CoherentGetIsUnique(m, URI_KEYS, u, u');
    CoherentGetIsUnique(m, JDBC_URI_KEYS, j, j');
  }

  lemma ServiceTLSIsDetermined(kind: Kind, m: Bindings, a: bool, b: bool)
    requires Coherent(m) && MayBeTLSService(kind, m, a) && MayBeTLSService(kind, m, b)
    ensures a == b
  {
    match kind {
      case InfluxDB =>
      case Redis =>
        var g, u :| MayBeTLS(m, g) && MayGet(m, URI_KEYS, u) && a == (g || HasPrefix(u, "rediss"));
        var g', u' :| MayBeTLS(m, g') && MayGet(m, URI_KEYS, u') && b == (g' || HasPrefix(u', "rediss"));
        TLSIsDetermined(m, g, g');
        CoherentGetIsUnique(m, URI_KEYS, u, u');
      case _ =>
        TLSIsDetermined(m, a, b);
    }
  }

  /** Keys that fold together and hold the same value never show the map order. */
  lemma CoherentIsFixed(c: Config, slot: Slot)
    requires Coherent(slot.entry.creds)
    ensures FixedAnswers(c, slot)
  {
    hide MayGet, Coherent, MayBeTLSService;
    var m := slot.entry.creds;
    CoherentHasOneAnswer(m, HOST_KEYS);
    if TLSMatters(c, slot) {
      var kind := c.providers[slot.serviceType].kind;
      forall a, b | MayBeTLSService(kind, m, a) && MayBeTLSService(kind, m, b) ensures a == b {
        ServiceTLSIsDetermined(kind, m, a, b);
      }
    }
  }

  ghost predicate Always(m: Bindings, names: seq<string>, test: string -> bool) {
    forall r | MayGet(m, names, r) :: test(r)
  }

  ghost predicate Never(m: Bindings, names: seq<string>, test: string -> bool) {
    forall r | MayGet(m, names, r) :: !test(r)
  }

  predicate IsRediss(uri: string) {
    HasPrefix(uri, "rediss")
  }

  predicate RedisTests(flag: string, uri: string, jdbc: string, again: string) {
    ParseBool(flag) || AsksForSSL(uri) || AsksForSSL(jdbc) || IsRediss(again)
  }

  /** The TLS answers of redis are those of its four tests on any lookups. */
  lemma RedisMayAnswer(m: Bindings, flag: string, uri: string, jdbc: string, again: string)
    requires MayGet(m, TLS_KEYS, flag) && MayGet(m, URI_KEYS, uri) && MayGet(m, JDBC_URI_KEYS, jdbc)
    requires MayGet(m, URI_KEYS, again)
    ensures MayBeTLSService(Redis, m, RedisTests(flag, uri, jdbc, again))
  {
    hide MayGet, ParseBool, AsksForSSL, HasPrefix;
    assert MayBeTLS(m, ParseBool(flag) || AsksForSSL(uri) || AsksForSSL(jdbc));
  }

  lemma RedisAnswered(m: Bindings, enabled: bool) returns (flag: string, uri: string, jdbc: string, again: string)
    requires MayBeTLSService(Redis, m, enabled)
    ensures MayGet(m, TLS_KEYS, flag) && MayGet(m, URI_KEYS, uri) && MayGet(m, JDBC_URI_KEYS, jdbc)
    ensures MayGet(m, URI_KEYS, again)
    ensures enabled == RedisTests(flag, uri, jdbc, again)
  {
    hide MayGet, ParseBool, AsksForSSL, HasPrefix;
    var general: bool, r: string :| MayBeTLS(m, general) && MayGet(m, URI_KEYS, r)
                                    && enabled == (general || HasPrefix(r, "rediss"));
    flag, uri, jdbc :| MayGet(m, TLS_KEYS, flag) && MayGet(m, URI_KEYS, uri) && MayGet(m, JDBC_URI_KEYS, jdbc)
                       && general == (ParseBool(flag) || AsksForSSL(uri) || AsksForSSL(jdbc));
    again := r;
  }

  /** One of the tests passes whatever is looked up. */
  ghost predicate SomeAlways(m: Bindings) {
    || Always(m, TLS_KEYS, ParseBool) || Always(m, URI_KEYS, AsksForSSL)
    || Always(m, JDBC_URI_KEYS, AsksForSSL) || Always(m, URI_KEYS, IsRediss)
  }

  /** All tests fail whatever is looked up. */
  ghost predicate AllNever(m: Bindings) {
    && Never(m, TLS_KEYS, ParseBool) && Never(m, URI_KEYS, AsksForSSL)
    && Never(m, JDBC_URI_KEYS, AsksForSSL) && Never(m, URI_KEYS, IsRediss)
  }

  lemma RedisMayDecline(m: Bindings)
    requires !SomeAlways(m)
    ensures MayBeTLSService(Redis, m, false)
  {
    hide MayGet, ParseBool, AsksForSSL, IsRediss, MayBeTLSService;
    var flag :| MayGet(m, TLS_KEYS, flag) && !ParseBool(flag);
    var uri :| MayGet(m, URI_KEYS, uri) && !AsksForSSL(uri);
    var jdbc :| MayGet(m, JDBC_URI_KEYS, jdbc) && !AsksForSSL(jdbc);
    var again :| MayGet(m, URI_KEYS, again) && !IsRediss(again);
    RedisMayAnswer(m, flag, uri, jdbc, again);
  }

  lemma RedisMayAccept(m: Bindings)
    requires !AllNever(m)
    ensures MayBeTLSService(Redis, m, true)
  {
    hide MayGet, ParseBool, AsksForSSL, IsRediss, MayBeTLSService;
    var flag := GetExists(m, TLS_KEYS);
    var uri := GetExists(m, URI_KEYS);
    var jdbc := GetExists(m, JDBC_URI_KEYS);
    var again := uri;
    if !Never(m, TLS_KEYS, ParseBool) {
      flag :| MayGet(m, TLS_KEYS, flag) && ParseBool(flag);
    } else if !Never(m, URI_KEYS, AsksForSSL) {
      uri :| MayGet(m, URI_KEYS, uri) && AsksForSSL(uri);
    } else if !Never(m, JDBC_URI_KEYS, AsksForSSL) {
      jdbc :| MayGet(m, JDBC_URI_KEYS, jdbc) && AsksForSSL(jdbc);
    } else {
      again :| MayGet(m, URI_KEYS, again) && IsRediss(again);
    }
    RedisMayAnswer(m, flag, uri, jdbc, again);
  }

  /** The TLS answer of redis is one exactly if one of its four tests passes
      whatever is looked up, or all four fail whatever is looked up. */
  lemma RedisTLSIsUniqueIff(m: Bindings)
    ensures UniqueTLS(Redis, m) <==> SomeAlways(m) || AllNever(m)
  {
    hide MayGet, ParseBool, AsksForSSL, IsRediss, MayBeTLSService;
    if !SomeAlways(m) && !AllNever(m) {
      RedisMayDecline(m);
      RedisMayAccept(m);
    }
    forall a | MayBeTLSService(Redis, m, a) ensures (SomeAlways(m) ==> a) && (AllNever(m) ==> !a) {
      var flag, uri, jdbc, again := RedisAnswered(m, a);
    }
  }

  lemma {:induction false} NoKeyAnswers(m: Bindings, names: seq<string>)
    requires forall k, n | k in m && n in names :: !EqualFold(k, n)
    ensures MayGet(m, names, "")
  {
    if names != [] { NoKeyAnswers(m, names[1..]); }
  }

  /** Two keys that disagree about TLS. */
  const TLS_OR_NOT: Bindings := map["host" := Str("h"), "tls" := Str("true"), "TLS" := Str("false")]

  lemma EitherTLS()
    ensures MayBeTLSService(Redis, TLS_OR_NOT, true) && MayBeTLSService(Redis, TLS_OR_NOT, false)
  {
    hide MayGet, MayBeTLSService;
    var m := TLS_OR_NOT;
    assert MayGet(m, TLS_KEYS, "true") && MayGet(m, TLS_KEYS, "false") by { EitherFlag(); }
    assert MayGet(m, URI_KEYS, "") && MayGet(m, JDBC_URI_KEYS, "") by { NoAddresses(); }
    assert !RedisTests("false", "", "", "") && RedisTests("true", "", "", "");
    RedisMayAnswer(m, "true", "", "", "");
    RedisMayAnswer(m, "false", "", "", "");
  }

  lemma EitherFlag()
    ensures MayGet(TLS_OR_NOT, TLS_KEYS, "true") && MayGet(TLS_OR_NOT, TLS_KEYS, "false")
  {
    var m := TLS_OR_NOT;
    assert EqualFold("tls", "tls") && EqualFold("TLS", "tls");
    assert HasKey(m, TLS_KEYS[0]) && Show(m["tls"]) == "true" && Show(m["TLS"]) == "false";
  }

  lemma NoAddresses()
    ensures MayGet(TLS_OR_NOT, URI_KEYS, "") && MayGet(TLS_OR_NOT, JDBC_URI_KEYS, "")
  {
    assert FoldChar("tls"[0]) == FoldChar("TLS"[0]) != FoldChar("uri"[0]) == FoldChar("url"[0]);
    assert |"host"| == 4 && |"tls"| == |"TLS"| == |"uri"| == |"url"| == 3;
    NoKeyAnswers(TLS_OR_NOT, URI_KEYS);
    NoKeyAnswers(TLS_OR_NOT, JDBC_URI_KEYS);
  }

  /** With two keys that disagree about TLS, redis-cli gets one port or two. */
  lemma AmbiguousTLSShows() returns (job: Job, a: seq<Seen>, b: seq<Seen>)
    ensures job.slots == [Slot("redis", Entry("", "x", TLS_OR_NOT))] && job.c.program == "redis-cli" && job.port == 1
    ensures Valid(job, a) && End(job, a).nextPort == 3 && Valid(job, b) && End(job, b).nextPort == 2
  {
    hide MayGet, MayBeTLSService, AllSeen, Addr, PortOf, Redirected;
    var c := Config("redis-cli", map["redis" := ProviderState(Redis, 0, "")]);
    job := Job(c, ["x"], 1, map[], [Slot("redis", Entry("", "x", TLS_OR_NOT))]);
    EitherTLS();
    var before := Begun(job, 0);
    var host := GetExists(TLS_OR_NOT, HOST_KEYS);
    a := Answered(job, before, host, true);
    b := Answered(job, before, host, false);
    OneStep(job, a);
    OneStep(job, b);
  }

  lemma OneStep(job: Job, a: seq<Seen>)
    requires |job.slots| == |a| == 1
    ensures End(job, a) == Step(job.c, Start(job.names, job.port, job.env), 0, job.slots[0], a[0])
  {
    hide Step;
    assert After(job, a, 0) == Start(job.names, job.port, job.env);
  }

  /** Two runs on equal inputs sort the service types alike, keep the same bindings
      and end alike; and if the lookups that shape the plan have one answer each,
      they plan alike. */
  lemma PlanIsDetermined(c: Config, names: seq<string>, port: nat, env: map<string, string>, services: Environment,
                         keysA: seq<string>, keysB: seq<string>, a: seq<Seen>, b: seq<Seen>)
    requires StrictlySorted(keysA) && StrictlySorted(keysB)
    requires forall k :: k in services <==> k in keysA
    requires forall k :: k in services <==> k in keysB
    requires Valid(Job(c, names, port, env, Slots(keysA, services)), a)
    requires Valid(Job(c, names, port, env, Slots(keysB, services)), b)
    ensures keysA == keysB
    ensures var job := Job(c, names, port, env, Slots(keysA, services));
      && SameChoices(End(job, a), End(job, b))
      && (End(job, a).stopped.Some? ==> End(job, a).stopped.value < |job.slots|)
      && OutcomeOf(c, job.slots, End(job, a)) == OutcomeOf(c, job.slots, End(job, b))
      && (AllFixed(job) ==> SamePlan(End(job, a), End(job, b)))
  {
    hide PassAfter, AllSeen, Slots, AllFixed;
    SortedIsUnique(keysA, keysB);
    var job := Job(c, names, port, env, Slots(keysA, services));
    OutcomeIsFixed(job, a, b);
    PlanIsFixedIff(job);
  }
}
