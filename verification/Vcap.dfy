/** The decoded VCAP_SERVICES: lists of bindings whose credentials are objects of
    their own, against the plain values they were decoded from. */
module Vcap {
  import opened GoStrings
  import opened ServiceCredentials
  import opened Outside
  import opened Services
  import opened Plan

  type Listing = map<string, seq<VcapService>>

  /** A binding together with the service type it is listed under. */
  datatype Ref = Ref(serviceType: string, service: VcapService)

  function EntryOf(s: VcapService): Entry
    reads s.credentials
  {
    Entry(s.name, s.instanceName, s.credentials.entries)
  }

  function Entries(ss: seq<VcapService>): (es: seq<Entry>)
    reads set i | 0 <= i < |ss| :: ss[i].credentials
    ensures |es| == |ss| && forall i | 0 <= i < |ss| :: es[i] == EntryOf(ss[i])
  {
    if ss == [] then [] else Entries(ss[..|ss| - 1]) + [EntryOf(ss[|ss| - 1])]
  }

  /** The plain values of a listing. */
  function Values(m: Listing): Environment
    reads set t, i | t in m && 0 <= i < |m[t]| :: m[t][i].credentials
  {
    map t | t in m :: Entries(m[t])
  }

  function RefBlock(t: string, ss: seq<VcapService>): (b: seq<Ref>)
    ensures |b| == |ss|
  {
    seq(|ss|, i requires 0 <= i < |ss| => Ref(t, ss[i]))
  }

  /** The bindings in visiting order; it mirrors `Slots`. */
  function Refs(keys: seq<string>, m: Listing): seq<Ref>
    requires forall k | k in keys :: k in m
  {
    if keys == [] then []
    else Refs(keys[..|keys| - 1], m) + RefBlock(keys[|keys| - 1], m[keys[|keys| - 1]])
  }

  /** No two bindings share their credentials object. */
  ghost predicate Unshared(refs: seq<Ref>) {
    forall i, j | 0 <= i < j < |refs| :: refs[i].service.credentials != refs[j].service.credentials
  }

  /** The objects hold the values of the slots. */
  ghost predicate Holds(refs: seq<Ref>, slots: seq<Slot>)
    reads set i | 0 <= i < |refs| :: refs[i].service.credentials
  {
    |refs| == |slots| && forall i | 0 <= i < |refs| :: slots[i] == Slot(refs[i].serviceType, EntryOf(refs[i].service))
  }

  /** The bindings at the given slots. */
  function At(refs: seq<Ref>, ks: seq<nat>): (ss: seq<VcapService>)
    requires forall j | 0 <= j < |ks| :: ks[j] < |refs|
    ensures |ss| == |ks|
  {
    seq(|ks|, j requires 0 <= j < |ks| => refs[ks[j]].service)
  }

  lemma {:induction false} RefsLocate(keys: seq<string>, m: Listing, i: nat) returns (t: string, at: nat)
    requires (forall k | k in keys :: k in m) && i < |Refs(keys, m)|
    ensures t in keys && at < |m[t]| && Refs(keys, m)[i] == Ref(t, m[t][at])
  {
    var init, last := keys[..|keys| - 1], keys[|keys| - 1];
    if i < |Refs(init, m)| {
      t, at := RefsLocate(init, m, i);
    } else {
      t, at := last, i - |Refs(init, m)|;
    }
  }

  function CredsOf(ss: seq<VcapService>): set<Credentials> {
    set i | 0 <= i < |ss| :: ss[i].credentials
  }

  ghost predicate Distinct(ss: seq<VcapService>) {
    forall i, j | 0 <= i < j < |ss| :: ss[i].credentials != ss[j].credentials
  }

  /** No two places of a listing share their credentials object. */
  ghost predicate AllApart(m: Listing) {
    && (forall t | t in m :: Distinct(m[t]))
    && (forall s, t | s in m && t in m && s != t :: CredsOf(m[s]) !! CredsOf(m[t]))
  }

  lemma {:induction false} RefsUnshared(keys: seq<string>, m: Listing)
    requires (forall k | k in keys :: k in m) && StrictlySorted(keys) && AllApart(m)
    ensures Unshared(Refs(keys, m))
  {
    if keys != [] {
      var init, last := keys[..|keys| - 1], keys[|keys| - 1];
      RefsUnshared(init, m);
      LessIrreflexive(last);
      var refs, split := Refs(keys, m), |Refs(init, m)|;
      forall i, j | 0 <= i < j < |refs| ensures refs[i].service.credentials != refs[j].service.credentials {
        if i < split <= j {
          var t, at := RefsLocate(init, m, i);
          assert Less(t, last) && t != last;
          assert refs[i].service.credentials in CredsOf(m[t]) && refs[j].service.credentials in CredsOf(m[last]);
        }
      }
    }
  }

  lemma {:induction false} RefsHold(keys: seq<string>, m: Listing, env: Environment)
    requires Values(m) == env && forall k | k in keys :: k in m
    ensures Holds(Refs(keys, m), Slots(keys, env))
  {
    if keys != [] {
      RefsHold(keys[..|keys| - 1], m, env);
    }
  }

  lemma {:induction false} RefsAppend(keys: seq<string>, m: Listing, n: nat)
    requires n < |keys| && forall k | k in keys :: k in m
    ensures Refs(keys[..n + 1], m) == Refs(keys[..n], m) + RefBlock(keys[n], m[keys[n]])
  {
    assert keys[..n + 1][..n] == keys[..n];
  }

  lemma {:induction false} RefsPrefix(keys: seq<string>, m: Listing, n: nat)
    requires n <= |keys| && forall k | k in keys :: k in m
    ensures |Refs(keys[..n], m)| <= |Refs(keys, m)| && Refs(keys, m)[..|Refs(keys[..n], m)|] == Refs(keys[..n], m)
    decreases |keys|
  {
    if n < |keys| {
      RefsPrefix(keys[..|keys| - 1], m, n);
      assert keys[..|keys| - 1][..n] == keys[..n];
    } else {
      assert keys[..n] == keys;
    }
  }

  /** Decoding makes a fresh object for the credentials of each binding. */
  method Decode(env: Environment) returns (m: Listing, ghost made: set<Credentials>)
    ensures Values(m) == env && AllApart(m)
    ensures fresh(made) && forall t | t in m :: CredsOf(m[t]) <= made
  {
    m := map[];
    var rest := env.Keys;
    made := {};
    while rest != {}
      invariant rest <= env.Keys && m.Keys == env.Keys - rest
      invariant forall t | t in m :: CredsOf(m[t]) <= made && Mirrors(m[t], env[t])
      invariant fresh(made) && AllApart(m)
    {
      var t :| t in rest;
      var list := DecodeList(env[t]);
      ExtendApart(m, made, t, list);
      m := m[t := list];
      made := made + CredsOf(list);
      rest := rest - {t};
    }
    MirroredValues(m, env);
  }

  /** The objects of the list hold these values. */
  ghost predicate Mirrors(ss: seq<VcapService>, es: seq<Entry>)
    reads set i | 0 <= i < |ss| :: ss[i].credentials
  {
    |ss| == |es| && forall i | 0 <= i < |ss| :: EntryOf(ss[i]) == es[i]
  }

  lemma MirroredValues(m: Listing, env: Environment)
    requires m.Keys == env.Keys && forall t | t in m :: Mirrors(m[t], env[t])
    ensures Values(m) == env
  {
    assert forall t | t in m :: Entries(m[t]) == env[t];
  }

  lemma ExtendApart(m: Listing, made: set<Credentials>, t: string, list: seq<VcapService>)
    requires AllApart(m) && t !in m && Distinct(list)
    requires made !! CredsOf(list) && forall s | s in m :: CredsOf(m[s]) <= made
    ensures AllApart(m[t := list])
  {
  }

  method DecodeList(es: seq<Entry>) returns (ss: seq<VcapService>)
    ensures Mirrors(ss, es) && Distinct(ss) && fresh(CredsOf(ss))
  {
    ss := [];
    for n := 0 to |es|
      invariant |ss| == n && forall i | 0 <= i < n :: EntryOf(ss[i]) == es[i]
      invariant Distinct(ss) && fresh(CredsOf(ss))
    {
      var creds := new Credentials(es[n].creds);
      assert forall i | 0 <= i < n :: ss[i].credentials in CredsOf(ss);
      ss := ss + [VcapService(es[n].name, es[n].instanceName, creds)];
    }
  }
}
