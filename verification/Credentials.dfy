/** client/credentials.go: the credentials of one service binding, a map that
    `SetAddress` rewrites in place to point at a local tunnel. */
module ServiceCredentials {
  import opened GoStrings

  /** The whole numbers that `%v` prints as plain decimals once JSON has decoded
      them; from a million on it switches to exponent form. */
  type PlainNumber = n: int | -1_000_000 < n < 1_000_000

  /** What a JSON credential value decodes to. An `Other` value (any other number,
      a boolean, null, a list, an object) is known only by its `%v` form. */
  datatype Value = Str(text: string) | Number(value: PlainNumber) | Other(shown: string)

  type Bindings = map<string, Value>

  /** `%v`. */
  function Show(v: Value): string {
    match v
    case Str(text) => text
    case Number(n) => Decimal(n)
    case Other(shown) => shown
  }

  /** The address of this machine that bindings are pointed at. */
  const LOOPBACK: string := "127.0.0.1"

  const PORT_KEY: string := "port"
  const HOST_KEYS: seq<string> := ["host", "hostname"]
  const URI_KEYS: seq<string> := ["uri", "url"]
  const JDBC_URI_KEYS: seq<string> := ["jdbcuri", "jdbcurl", "jdbc_uri", "jdbc_url"]
  const USERNAME_KEYS: seq<string> := ["user", "username"]
  const PASSWORD_KEYS: seq<string> := ["password", "passwd", "pwd"]
  const DATABASE_KEYS: seq<string> := ["database", "db", "name"]
  const TLS_KEYS: seq<string> := ["tls", "tls_enabled", "tlsenabled"]

  function Addr(host: string, port: int): (a: string)
    ensures |a| >= 2
  {
    host + ":" + Decimal(port)
  }

  predicate IsHostKey(k: string) {
    EqualFold(k, "host") || EqualFold(k, "hostname")
  }

  predicate HasHostKey(m: Bindings) {
    exists k :: k in m && IsHostKey(k)
  }

  predicate HasKey(m: Bindings, name: string) {
    exists k :: k in m && EqualFold(k, name)
  }

  /** The results `get(names...)` can have on `m`: the map is visited in any
      order, so when several keys fold to the same name any of them may answer. */
  ghost predicate MayGet(m: Bindings, names: seq<string>, r: string) {
    if names == [] then r == ""
    else if HasKey(m, names[0]) then exists k :: k in m && EqualFold(k, names[0]) && r == Show(m[k])
    else MayGet(m, names[1..], r)
  }

  /** Some key that folds to this name has this value. */
  predicate Holds(m: Bindings, name: string, r: string) {
    exists k :: k in m && EqualFold(k, name) && r == Show(m[k])
  }

  /** It has, and no key folds to any of the names before this one. */
  predicate FirstOf(m: Bindings, names: seq<string>, r: string, i: nat) {
    i < |names| && Holds(m, names[i], r) && forall j | 0 <= j < i :: !HasKey(m, names[j])
  }

  /** The answer is the value of a key that folds to the first of the names that any
      key folds to, or "" if no key folds to any of them. */
  lemma {:induction false} MayGetIff(m: Bindings, names: seq<string>, r: string)
    ensures MayGet(m, names, r) <==>
      (exists i: nat :: FirstOf(m, names, r, i)) || (r == "" && forall n | n in names :: !HasKey(m, n))
  {
    if names != [] {
      if HasKey(m, names[0]) {
        assert MayGet(m, names, r) <==> FirstOf(m, names, r, 0);
        assert forall i: nat | FirstOf(m, names, r, i) :: i == 0;
      } else {
        MayGetIff(m, names[1..], r);
        assert !FirstOf(m, names, r, 0);
        hide FirstOf, HasKey;
        if i: nat :| FirstOf(m, names, r, i) {
          FirstLater(m, names, r, i - 1);
          assert FirstOf(m, names[1..], r, i - 1);
        }
        if i: nat :| FirstOf(m, names[1..], r, i) { FirstLater(m, names, r, i); }
        assert forall n :: n in names <==> n == names[0] || n in names[1..];
      }
    }
  }

  lemma FirstLater(m: Bindings, names: seq<string>, r: string, i: nat)
    requires names != [] && !HasKey(m, names[0])
    ensures FirstOf(m, names, r, i + 1) <==> FirstOf(m, names[1..], r, i)
  {
    hide HasKey, Holds;
    var rest := names[1..];
    assert i < |rest| ==> rest[i] == names[i + 1];
    if FirstOf(m, names, r, i + 1) {
      forall j | 0 <= j < i ensures !HasKey(m, rest[j]) { assert rest[j] == names[j + 1]; }
    }
    if FirstOf(m, rest, r, i) {
      forall j | 0 <= j < i + 1 ensures !HasKey(m, names[j]) { assert j > 0 ==> names[j] == rest[j - 1]; }
    }
  }

  /** Keys that fold to the same name hold the same value. Only "port" is exempt:
      it is read by its exact name. */
  ghost predicate Coherent(m: Bindings) {
    forall j, k | j in m && k in m && EqualFold(j, k) && !EqualFold(j, PORT_KEY) :: m[j] == m[k]
  }

  /** `Port()`: only the exact key "port" is read, and what does not parse is 0. */
  function PortOf(m: Bindings): (p: int)
    ensures IsInt64(p)
  {
    Atoi(if PORT_KEY in m then Show(m[PORT_KEY]) else "<nil>")
  }

  /** No port is 0, a number or the decimal form of a 64-bit number is itself, and
      any other value is what its printed form stands for. */
  lemma PortMeaning(m: Bindings)
    ensures "port" !in m ==> PortOf(m) == 0
    ensures "port" in m ==> match m["port"]
      case Number(n) => PortOf(m) == n
      case Str(text) => StandsFor(text, PortOf(m))
      case Other(shown) => StandsFor(shown, PortOf(m))
    ensures forall n | IsInt64(n) && PORT_KEY in m && Show(m[PORT_KEY]) == Decimal(n) :: PortOf(m) == n
  {
    assert "<nil>"[0] == '<';
    AtoiMeaning("<nil>");
    if PORT_KEY in m {
      AtoiMeaning(Show(m[PORT_KEY]));
      if m[PORT_KEY].Number? { AtoiDecimal(m[PORT_KEY].value); }
      forall n | IsInt64(n) && Show(m[PORT_KEY]) == Decimal(n) ensures PortOf(m) == n {
        AtoiDecimal(n);
      }
    }
  }

  /** What the first pass of `SetAddress` makes of a value. */
  function Replaced(v: Value, oldAddr: string, newAddr: string): Value
    requires oldAddr != ""
  {
    if v.Str? then Str(ReplaceAll(v.text, oldAddr, newAddr)) else v
  }

  /** What `SetAddress` turns the value of one key into. */
  function Rewritten(k: string, v: Value, oldAddr: string, host: string, port: int): Value
    requires oldAddr != ""
  {
    if k == PORT_KEY then Str(Decimal(port))
    else if IsHostKey(k) then Str(host)
    else Replaced(v, oldAddr, Addr(host, port))
  }

  /** The map after `SetAddress(host, port)`, given the address it looked for. */
  function Rewrite(m: Bindings, oldAddr: string, host: string, port: int): Bindings
    requires oldAddr != ""
  {
    map k | k in m.Keys + {PORT_KEY} ::
      Rewritten(k, if k in m then m[k] else Other("<nil>"), oldAddr, host, port)
  }

  /** The map after `SetAddress` to a port of this machine, looking for host `h`. */
  function Redirected(m: Bindings, h: string, port: int): Bindings {
    Rewrite(m, Addr(h, PortOf(m)), LOOPBACK, port)
  }

  /** The maps `SetAddress(host, port)` can leave behind. */
  ghost predicate MaySetAddress(m: Bindings, m': Bindings, host: string, port: int) {
    exists h :: MayGet(m, HOST_KEYS, h) && m' == Rewrite(m, Addr(h, PortOf(m)), host, port)
  }

  /** The strings `strconv.ParseBool` takes for true. */
  predicate ParseBool(s: string) {
    s == "1" || s == "t" || s == "T" || s == "true" || s == "TRUE" || s == "True"
  }

  predicate AsksForSSL(uri: string) {
    Contains(ToLower(uri), "ssl=true")
  }

  /** The answers `IsTLSEnabled()` can give on `m`. */
  ghost predicate MayBeTLS(m: Bindings, enabled: bool) {
    exists flag, uri, jdbc ::
      && MayGet(m, TLS_KEYS, flag) && MayGet(m, URI_KEYS, uri) && MayGet(m, JDBC_URI_KEYS, jdbc)
      && enabled == (ParseBool(flag) || AsksForSSL(uri) || AsksForSSL(jdbc))
  }

  /** The flag stands for true, or one of the addresses holds "ssl=true", in capitals
      or not. */
  lemma TLSMeaning(m: Bindings, enabled: bool)
    ensures MayBeTLS(m, enabled) <==>
      exists flag, uri, jdbc ::
        && MayGet(m, ["tls", "tls_enabled", "tlsenabled"], flag) && MayGet(m, ["uri", "url"], uri)
        && MayGet(m, ["jdbcuri", "jdbcurl", "jdbc_uri", "jdbc_url"], jdbc)
        && (enabled <==> flag in {"1", "t", "T", "true", "TRUE", "True"} || HoldsSSL(uri) || HoldsSSL(jdbc))
  {
    hide MayGet, ParseBool, AsksForSSL, HoldsSSL;
    if MayBeTLS(m, enabled) {
      var flag, uri, jdbc :| MayGet(m, TLS_KEYS, flag) && MayGet(m, URI_KEYS, uri) && MayGet(m, JDBC_URI_KEYS, jdbc)
                             && enabled == (ParseBool(flag) || AsksForSSL(uri) || AsksForSSL(jdbc));
      TLSTests(flag, uri, jdbc);
    }
    if flag, uri, jdbc :|
      && MayGet(m, ["tls", "tls_enabled", "tlsenabled"], flag) && MayGet(m, ["uri", "url"], uri)
      && MayGet(m, ["jdbcuri", "jdbcurl", "jdbc_uri", "jdbc_url"], jdbc)
      && (enabled <==> flag in {"1", "t", "T", "true", "TRUE", "True"} || HoldsSSL(uri) || HoldsSSL(jdbc))
    {
      TLSTests(flag, uri, jdbc);
      assert MayGet(m, TLS_KEYS, flag) && MayGet(m, URI_KEYS, uri) && MayGet(m, JDBC_URI_KEYS, jdbc);
    }
  }

  lemma TLSTests(flag: string, uri: string, jdbc: string)
    ensures ParseBool(flag) <==> flag in {"1", "t", "T", "true", "TRUE", "True"}
    ensures (AsksForSSL(uri) <==> HoldsSSL(uri)) && (AsksForSSL(jdbc) <==> HoldsSSL(jdbc))
  {
    hide Contains, ToLower, HoldsAt;
    HoldsSSLIff(uri);
    HoldsSSLIff(jdbc);
    HoldsWithin(uri);
    HoldsWithin(jdbc);
  }

  lemma HoldsWithin(s: string)
    ensures HoldsSSL(s) <==> exists i: nat :: HoldsAt(s, "ssl=true", "SSL=TRUE", i)
  {
  }

  predicate HoldsSSL(s: string) {
    exists i | 0 <= i <= |s| :: HoldsAt(s, "ssl=true", "SSL=TRUE", i)
  }

  class Credentials {
    var entries: Bindings

    constructor (entries: Bindings)
      ensures this.entries == entries
    {
      this.entries := entries;
    }

    /** The value of the first name any key folds to, "" when there is none. */
    method Get(names: seq<string>) returns (r: string)
      ensures MayGet(entries, names, r)
    {
      for i := 0 to |names|
        invariant forall s :: MayGet(entries, names, s) <==> MayGet(entries, names[i..], s)
      {
        var rest := entries.Keys;
        while rest != {}
          invariant rest <= entries.Keys
          invariant forall k | k in entries && k !in rest :: !EqualFold(k, names[i])
        {
          var k :| k in rest;
          if EqualFold(k, names[i]) {
            return Show(entries[k]);
          }
          rest := rest - {k};
        }
        assert names[i..][1..] == names[i + 1..];
      }
      r := "";
    }

    method Host() returns (r: string)
      ensures MayGet(entries, HOST_KEYS, r)
    {
      r := Get(HOST_KEYS);
    }

    method Port() returns (p: int)
      ensures p == PortOf(entries)
      ensures if "port" in entries then StandsFor(Show(entries["port"]), p) else p == 0
    {
      PortMeaning(entries);
      if PORT_KEY in entries { AtoiMeaning(Show(entries[PORT_KEY])); }
      p := Atoi(if PORT_KEY in entries then Show(entries[PORT_KEY]) else "<nil>");
    }

    method IsTLSEnabled() returns (enabled: bool)
      ensures MayBeTLS(entries, enabled)
    {
      hide Contains, ToLower, EqualFold, MayGet;
      var flag := Get(TLS_KEYS);
      var uri := Get(URI_KEYS);
      var jdbc := Get(JDBC_URI_KEYS);
      enabled := ParseBool(flag) || AsksForSSL(uri) || AsksForSSL(jdbc);
    }

    /** Two passes over the map: every string has the old address replaced, then
        every host key and "port" are overwritten. `oldHost` is what `Host()` answered. */
    method SetAddress(host: string, port: int) returns (ghost oldHost: string)
      modifies this
      ensures MayGet(old(entries), HOST_KEYS, oldHost)
      ensures entries == Rewrite(old(entries), Addr(oldHost, PortOf(old(entries))), host, port)
    {
      hide ReplaceAll, MayGet, Decimal, EqualFold;
      ghost var m := entries;
      var h := Host();
      oldHost := h;
      var p := Port();
      var oldAddr, newAddr := Addr(h, p), Addr(host, port);
      var rest := entries.Keys;
      while rest != {}
        invariant entries.Keys == m.Keys && rest <= m.Keys
        invariant forall k | k in m :: entries[k] == (if k in rest then m[k] else Replaced(m[k], oldAddr, newAddr))
      {
        var k :| k in rest;
        entries := entries[k := Replaced(entries[k], oldAddr, newAddr)];
        rest := rest - {k};
      }
      rest := entries.Keys;
      while rest != {}
        invariant entries.Keys == m.Keys && rest <= m.Keys
        invariant forall k | k in m ::
            entries[k] == (if k !in rest && IsHostKey(k) then Str(host) else Replaced(m[k], oldAddr, newAddr))
      {
        var k :| k in rest;
        if IsHostKey(k) {
          entries := entries[k := Str(host)];
        }
        rest := rest - {k};
      }
      entries := entries[PORT_KEY := Str(Decimal(port))];
    }
  }

  // ------------------------------------------------------ lookups and order

  /** The lookups of this file never go by a name that folds to "port". */
  predicate NoneIsPort(names: seq<string>) {
    forall n | n in names :: |n| != 4 || FoldChar(n[0]) != 'p'
  }

  /** On a coherent map the visiting order cannot be observed. */
  lemma {:induction false} CoherentGetIsUnique(m: Bindings, names: seq<string>, r: string, s: string)
    requires Coherent(m) && NoneIsPort(names)
    requires MayGet(m, names, r) && MayGet(m, names, s)
    ensures r == s
  {
    if names != [] {
      if HasKey(m, names[0]) {
        var j :| j in m && EqualFold(j, names[0]) && r == Show(m[j]);
        var k :| k in m && EqualFold(k, names[0]) && s == Show(m[k]);
        assert EqualFold(j, k);
        assert names[0] in names && !EqualFold(j, PORT_KEY);
      } else {
        CoherentGetIsUnique(m, names[1..], r, s);
      }
    }
  }

  lemma {:induction false} GetExists(m: Bindings, names: seq<string>) returns (r: string)
    ensures MayGet(m, names, r)
  {
    if names == [] {
      r := "";
    } else if HasKey(m, names[0]) {
      var k :| k in m && EqualFold(k, names[0]);
      r := Show(m[k]);
    } else {
      r := GetExists(m, names[1..]);
    }
  }

  /** The first of `names` some key folds to, or `|names|`. */
  ghost function FirstName(m: Bindings, names: seq<string>): (n: nat)
    ensures n <= |names|
  {
    if names == [] || HasKey(m, names[0]) then 0 else 1 + FirstName(m, names[1..])
  }

  ghost predicate UniqueAnswer(m: Bindings, names: seq<string>) {
    forall r, s | MayGet(m, names, r) && MayGet(m, names, s) :: r == s
  }

  ghost predicate PrintsAlike(m: Bindings, name: string) {
    forall j, k | j in m && k in m && EqualFold(j, name) && EqualFold(k, name) :: Show(m[j]) == Show(m[k])
  }

  /** `get` has one possible answer exactly when the keys that fold to the first
      matching name all print alike. */
  lemma {:induction false} GetIsUniqueIff(m: Bindings, names: seq<string>)
    ensures UniqueAnswer(m, names) <==>
      FirstName(m, names) == |names| || PrintsAlike(m, names[FirstName(m, names)])
  {
    if names != [] {
      if HasKey(m, names[0]) {
        assert forall k | k in m && EqualFold(k, names[0]) :: MayGet(m, names, Show(m[k]));
      } else {
        GetIsUniqueIff(m, names[1..]);
        assert forall r :: MayGet(m, names, r) <==> MayGet(m, names[1..], r);
        assert UniqueAnswer(m, names) <==> UniqueAnswer(m, names[1..]);
      }
    }
  }

  lemma CoherentHasOneAnswer(m: Bindings, names: seq<string>)
    requires Coherent(m) && NoneIsPort(names)
    ensures UniqueAnswer(m, names)
  {
    hide MayGet, Coherent;
    forall r, s | MayGet(m, names, r) && MayGet(m, names, s) ensures r == s {
      CoherentGetIsUnique(m, names, r, s);
    }
  }

  /** Credentials for which it has two, so that the map order shows. */
  lemma TwoAnswers() returns (m: Bindings)
    ensures m == map["host" := Str("a"), "Host" := Str("b")]
    ensures MayGet(m, HOST_KEYS, "a") && MayGet(m, HOST_KEYS, "b") && !UniqueAnswer(m, HOST_KEYS)
  {
    m := map["host" := Str("a"), "Host" := Str("b")];
    EitherAnswers(m);
    assert "a"[0] != "b"[0];
  }

  lemma EitherAnswers(m: Bindings)
    requires "host" in m && m["host"] == Str("a") && "Host" in m && m["Host"] == Str("b")
    ensures MayGet(m, HOST_KEYS, "a") && MayGet(m, HOST_KEYS, "b")
  {
    assert EqualFold("host", "host") && EqualFold("Host", "host");
    assert Show(m["host"]) == "a" && Show(m["Host"]) == "b";
    assert HasKey(m, HOST_KEYS[0]);
  }

  // -------------------------------------------------------------- read-back

  lemma PortIsNotHostKey()
    ensures !IsHostKey(PORT_KEY)
  {
    assert FoldChar("port"[0]) != FoldChar("host"[0]);
  }

  /** `Host()` answers with some host key, or "" when there is none. */
  lemma HostAnswer(m: Bindings, r: string)
    requires MayGet(m, HOST_KEYS, r)
    ensures if HasHostKey(m) then exists k :: k in m && IsHostKey(k) && r == Show(m[k]) else r == ""
  {
    assert HOST_KEYS[0] == "host" && HOST_KEYS[1..] == ["hostname"] && ["hostname"][1..] == [];
    if HasKey(m, "host") {
      var k :| k in m && EqualFold(k, "host") && r == Show(m[k]);
      assert IsHostKey(k);
    } else if HasKey(m, "hostname") {
      assert MayGet(m, ["hostname"], r);
      var k :| k in m && EqualFold(k, "hostname") && r == Show(m[k]);
      assert IsHostKey(k);
    } else {
      assert MayGet(m, ["hostname"], r) && MayGet(m, [], r);
    }
  }

  lemma KeepsHostKeys(m: Bindings, oldAddr: string, host: string, port: int)
    requires oldAddr != ""
    ensures HasHostKey(Rewrite(m, oldAddr, host, port)) == HasHostKey(m)
  {
    var m' := Rewrite(m, oldAddr, host, port);
    PortIsNotHostKey();
    if HasHostKey(m) { var k :| k in m && IsHostKey(k); assert k in m'; }
    if HasHostKey(m') { var k :| k in m' && IsHostKey(k); assert k in m; }
  }

  /** `Host()` of a rewritten map answers the new host if there is a host key. */
  lemma RewrittenHost(m: Bindings, oldAddr: string, host: string, port: int, r: string)
    requires oldAddr != "" && MayGet(Rewrite(m, oldAddr, host, port), HOST_KEYS, r)
    ensures r == if HasHostKey(m) then host else ""
  {
    KeepsHostKeys(m, oldAddr, host, port);
    HostAnswer(Rewrite(m, oldAddr, host, port), r);
    PortIsNotHostKey();
  }

  /** `Port()` answers the new port for every 64-bit port. `Host()` answers the
      new host whichever key is visited first, if there is a host key at all;
      `SetAddress` adds none, so otherwise it answers "". */
  lemma ReadBack(m: Bindings, m': Bindings, host: string, port: int, r: string)
    requires IsInt64(port) && MaySetAddress(m, m', host, port)
    requires MayGet(m', HOST_KEYS, r)
    ensures PortOf(m') == port
    ensures r == if HasHostKey(m) then host else ""
  {
    var h :| MayGet(m, HOST_KEYS, h) && m' == Rewrite(m, Addr(h, PortOf(m)), host, port);
    AtoiDecimal(port);
    RewrittenHost(m, Addr(h, PortOf(m)), host, port, r);
  }

  /** Every string but the host keys and "port" keeps its text between the
      leftmost non-overlapping occurrences of the old address and has the new
      address at each of them; other values stay; at most "port" is added. */
  lemma RewriteMeaning(m: Bindings, m': Bindings, host: string, port: int) returns (oldHost: string)
    requires MaySetAddress(m, m', host, port)
    ensures MayGet(m, ["host", "hostname"], oldHost)
    ensures m'.Keys == m.Keys + {"port"} && m'["port"] == Str(Decimal(port))
    ensures forall k | k in m && (EqualFold(k, "host") || EqualFold(k, "hostname")) :: m'[k] == Str(host)
    ensures forall k | k in m && k != "port" && !EqualFold(k, "host") && !EqualFold(k, "hostname") && !m[k].Str? ::
      m'[k] == m[k]
    ensures forall k | k in m && k != "port" && !EqualFold(k, "host") && !EqualFold(k, "hostname") && m[k].Str? ::
      exists ps: seq<string> | |ps| >= 1 && LeftmostPieces(ps, Addr(oldHost, PortOf(m))) ::
        m[k] == Str(Join(ps, Addr(oldHost, PortOf(m)))) && m'[k] == Str(Join(ps, Addr(host, port)))
  {
    oldHost :| MayGet(m, HOST_KEYS, oldHost) && m' == Rewrite(m, Addr(oldHost, PortOf(m)), host, port);
    var a, b := Addr(oldHost, PortOf(m)), Addr(host, port);
    PortIsNotHostKey();
    forall k | k in m && k != PORT_KEY && !IsHostKey(k) && m[k].Str?
      ensures exists ps: seq<string> | |ps| >= 1 && LeftmostPieces(ps, a) ::
        m[k] == Str(Join(ps, a)) && m'[k] == Str(Join(ps, b))
    {
      var ps := Split(m[k].text, a);
      SplitIsLeftmost(m[k].text, a);
      ReplaceIsSplitJoin(m[k].text, a, b);
      assert |ps| >= 1 && LeftmostPieces(ps, a);
    }
  }

  // ------------------------------------------------------------ idempotence

  /** Replacing changes no string, when the text put in is the text looked for
      or a longer one, exactly in these two cases. */
  lemma ReplaceUnchangedIff(s: string, oldText: string, prefix: string)
    requires oldText != ""
    ensures ReplaceAll(s, oldText, prefix + oldText) == s <==> prefix == "" || !Contains(s, oldText)
  {
    if prefix == "" {
      assert prefix + oldText == oldText;
      ReplaceBySelf(s, oldText);
    } else if Contains(s, oldText) {
      ReplaceGrows(s, oldText, prefix + oldText);
    } else {
      ReplaceNone(s, oldText, prefix + oldText);
    }
  }

  /** With a host key, `SetAddress` twice is `SetAddress` once. */
  lemma SetAddressIdempotent(m: Bindings, m': Bindings, m'': Bindings, host: string, port: int)
    requires IsInt64(port) && HasHostKey(m)
    requires MaySetAddress(m, m', host, port) && MaySetAddress(m', m'', host, port)
    ensures m'' == m'
  {
    var h :| MayGet(m, HOST_KEYS, h) && m' == Rewrite(m, Addr(h, PortOf(m)), host, port);
    var h' :| MayGet(m', HOST_KEYS, h') && m'' == Rewrite(m', Addr(h', PortOf(m')), host, port);
    ReadBack(m, m', host, port, h');
    RewriteSettles(m, Addr(h, PortOf(m)), host, port);
    assert "" + Addr(h', port) == Addr(host, port);
    RewriteIsIdentityIff(m', Addr(h', port), "", host, port);
  }

  /** Everything the rewrite sets is already there. */
  predicate Settled(m: Bindings, host: string, port: int) {
    PORT_KEY in m && m[PORT_KEY] == Str(Decimal(port)) && forall k | k in m && IsHostKey(k) :: m[k] == Str(host)
  }

  lemma RewriteSettles(m: Bindings, oldAddr: string, host: string, port: int)
    requires oldAddr != ""
    ensures Settled(Rewrite(m, oldAddr, host, port), host, port)
  {
    PortIsNotHostKey();
  }

  /** A settled map is left alone exactly when no string holds the text looked
      for, or that text is the one put in. */
  lemma RewriteIsIdentityIff(m: Bindings, oldAddr: string, prefix: string, host: string, port: int)
    requires oldAddr != "" && prefix + oldAddr == Addr(host, port) && Settled(m, host, port)
    ensures Rewrite(m, oldAddr, host, port) == m <==>
      prefix == "" || forall k | k in m && k != PORT_KEY && !IsHostKey(k) && m[k].Str? :: !Contains(m[k].text, oldAddr)
  {
    var m' := Rewrite(m, oldAddr, host, port);
    assert m'.Keys == m.Keys;
    forall k | k in m && k != PORT_KEY && !IsHostKey(k) && m[k].Str?
      ensures m'[k] == m[k] <==> prefix == "" || !Contains(m[k].text, oldAddr)
    {
      ReplaceUnchangedIff(m[k].text, oldAddr, prefix);
    }
    assert forall k | k in m && !(k != PORT_KEY && !IsHostKey(k) && m[k].Str?) :: m'[k] == m[k];
  }

  /** Some string other than "port" holds `text`. */
  predicate Mentions(m: Bindings, text: string) {
    exists k | k in m && k != PORT_KEY && m[k].Str? :: Contains(m[k].text, text)
  }

  /** Without a host key, ":port" stands in some string after `SetAddress` exactly
      if it, or the old ":port", did before. */
  lemma MentionsAfter(m: Bindings, oldAddr: string, host: string, port: int)
    requires !HasHostKey(m) && oldAddr != ""
    ensures Mentions(Rewrite(m, oldAddr, host, port), Addr("", port)) <==>
      Mentions(m, oldAddr) || Mentions(m, Addr("", port))
  {
    var m', t := Rewrite(m, oldAddr, host, port), Addr("", port);
    AddrSplits(host, port);
    forall k | k in m && k != PORT_KEY && m[k].Str?
      ensures m'[k].Str? && (Contains(m'[k].text, t) <==> Contains(m[k].text, oldAddr) || Contains(m[k].text, t))
    {
      assert !IsHostKey(k);
      ReplaceLeavesIff(m[k].text, oldAddr, host, t);
    }
  }

  /** A second `SetAddress` with the same arguments leaves the map as the first
      left it exactly when the map has a host key, or the host to set is empty, or
      no string but "port" holds the old or the new port after a colon. */
  lemma SetAddressIdempotentIff(m: Bindings, m': Bindings, m'': Bindings, host: string, port: int)
    requires IsInt64(port)
    requires MaySetAddress(m, m', host, port) && MaySetAddress(m', m'', host, port)
    ensures m'' == m' <==>
      HasHostKey(m) || host == "" || !(Mentions(m, Addr("", PortOf(m))) || Mentions(m, Addr("", port)))
  {
    hide ReplaceAll, Decimal, EqualFold, Contains;
    if HasHostKey(m) {
      SetAddressIdempotent(m, m', m'', host, port);
    } else {
      var h :| MayGet(m, HOST_KEYS, h) && m' == Rewrite(m, Addr(h, PortOf(m)), host, port);
      var h' :| MayGet(m', HOST_KEYS, h') && m'' == Rewrite(m', Addr(h', PortOf(m')), host, port);
      HostAnswer(m, h);
      ReadBack(m, m', host, port, h');
      RewriteSettles(m, Addr(h, PortOf(m)), host, port);
      KeepsHostKeys(m, Addr(h, PortOf(m)), host, port);
      AddrSplits(host, port);
      MentionsAfter(m, Addr(h, PortOf(m)), host, port);
      RewriteIsIdentityIff(m', Addr("", port), host, host, port);
      assert forall k | k in m' :: !IsHostKey(k);
    }
  }

  /** Credentials for which it does not: there is no host key and a text mentions
      the port, so the host is put in front of it twice. */
  lemma SetAddressTwice() returns (m: Bindings, m': Bindings, m'': Bindings)
    ensures m == map["url" := Str(":0")]
    ensures MaySetAddress(m, m', "h", 5) && MaySetAddress(m', m'', "h", 5) && m'' != m'
  {
    hide Rewrite, Decimal, Contains, PortOf;
    m := map["url" := Str(":0")];
    var h := GetExists(m, HOST_KEYS);
    m' := Rewrite(m, Addr(h, PortOf(m)), "h", 5);
    var h' := GetExists(m', HOST_KEYS);
    m'' := Rewrite(m', Addr(h', PortOf(m')), "h", 5);
    PortMeaning(m);
    PortZero();
    assert !HasHostKey(m) by { assert |"url"| != |"host"| && |"url"| != |"hostname"|; }
    assert m["url"].Str? && m["url"].text == ":0";
    assert Mentions(m, Addr("", PortOf(m)));
    SetAddressIdempotentIff(m, m', m'', "h", 5);
  }

  lemma PortZero()
    ensures Addr("", 0) == ":0" && Contains(":0", ":0")
  {
    assert Decimal(0) == "0";
    ContainsItself("", ":0", "");
    assert "" + ":0" + "" == ":0";
  }

  lemma AddrSplits(host: string, port: int)
    ensures host + Addr("", port) == Addr(host, port)
  {
  }

  /** Coherence survives the rewrite, so later lookups stay order-independent too. */
  lemma RewriteKeepsCoherent(m: Bindings, oldAddr: string, host: string, port: int)
    requires Coherent(m) && oldAddr != ""
    ensures Coherent(Rewrite(m, oldAddr, host, port))
  {
    var m' := Rewrite(m, oldAddr, host, port);
    forall j, k | j in m' && k in m' && EqualFold(j, k) && !EqualFold(j, PORT_KEY)
      ensures m'[j] == m'[k]
    {
      assert EqualFold(k, PORT_KEY) ==> EqualFold(j, PORT_KEY);
      assert IsHostKey(j) == IsHostKey(k);
    }
  }

  /** Some string the first pass of `SetAddress` decides about holds `text`. */
  predicate MentionsElsewhere(m: Bindings, text: string) {
    exists k | k in m && k != PORT_KEY && !IsHostKey(k) && m[k].Str? :: Contains(m[k].text, text)
  }

  /** Such a string holds an address that `SetAddress` may look for. */
  ghost predicate MentionsOwnAddress(m: Bindings) {
    exists h :: MayGet(m, HOST_KEYS, h) && MentionsElsewhere(m, Addr(h, PortOf(m)))
  }

  ghost predicate SetAddressDetermined(m: Bindings) {
    forall host, port, a, b | MaySetAddress(m, a, host, port) && MaySetAddress(m, b, host, port) :: a == b
  }

  lemma UnmentionedIsKept(m: Bindings, oldAddr: string, host: string, port: int)
    requires oldAddr != "" && !MentionsElsewhere(m, oldAddr)
    ensures forall k | k in m && k != PORT_KEY && !IsHostKey(k) :: Rewrite(m, oldAddr, host, port)[k] == m[k]
  {
    forall k | k in m && k != PORT_KEY && !IsHostKey(k) && m[k].Str?
      ensures Replaced(m[k], oldAddr, Addr(host, port)) == m[k]
    {
      ReplaceNone(m[k].text, oldAddr, Addr(host, port));
    }
  }

  /** A host so long that the address made of it is marked. */
  lemma LongHost(n: nat) returns (host: string)
    ensures Marked(Addr(host, 0), n)
  {
    host := ['h'] + seq(n, i => 'x');
    var w := Addr(host, 0);
    assert w[0] == host[0] == 'h';
    forall j | 0 < j <= n ensures w[j] != w[0] {
      assert w[j] == host[j] == 'x';
    }
  }

  lemma AmbiguousAddressShows(m: Bindings, g: string, h: string) returns (host: string)
    requires MayGet(m, HOST_KEYS, g) && MayGet(m, HOST_KEYS, h) && g != h && MentionsElsewhere(m, Addr(g, PortOf(m)))
    ensures Rewrite(m, Addr(g, PortOf(m)), host, 0) != Rewrite(m, Addr(h, PortOf(m)), host, 0)
  {
    hide ReplaceAll, MayGet, Decimal, Contains;
    var a, b := Addr(g, PortOf(m)), Addr(h, PortOf(m));
    AddrInjective(g, h, PortOf(m));
    var k :| k in m && k != PORT_KEY && !IsHostKey(k) && m[k].Str? && Contains(m[k].text, a);
    host := LongHost(|m[k].text|);
    ReplacementsDiffer(m[k].text, a, b, Addr(host, 0));
    assert Rewrite(m, a, host, 0)[k] != Rewrite(m, b, host, 0)[k];
  }

  lemma AddrInjective(g: string, h: string, port: int)
    ensures Addr(g, port) == Addr(h, port) <==> g == h
  {
    assert Addr(g, port)[..|g|] == g && |Addr(g, port)| == |g| + 1 + |Decimal(port)|;
    assert Addr(h, port)[..|h|] == h && |Addr(h, port)| == |h| + 1 + |Decimal(port)|;
  }

  /** What `SetAddress` makes of a map does not depend on the map order, whatever
      address is set, exactly if the host lookup has one answer or no string the
      first pass decides about holds an address that may be looked for. */
  lemma SetAddressIsDeterminedIff(m: Bindings)
    ensures SetAddressDetermined(m) <==> UniqueAnswer(m, HOST_KEYS) || !MentionsOwnAddress(m)
  {
    hide MayGet, Rewrite, Decimal, PortOf;
    if UniqueAnswer(m, HOST_KEYS) {
    } else if MentionsOwnAddress(m) {
      var g :| MayGet(m, HOST_KEYS, g) && MentionsElsewhere(m, Addr(g, PortOf(m)));
      var x, y :| MayGet(m, HOST_KEYS, x) && MayGet(m, HOST_KEYS, y) && x != y;
      var h := if g == x then y else x;
      var host := AmbiguousAddressShows(m, g, h);
      var a, b := Rewrite(m, Addr(g, PortOf(m)), host, 0), Rewrite(m, Addr(h, PortOf(m)), host, 0);
      assert MaySetAddress(m, a, host, 0) && MaySetAddress(m, b, host, 0) && a != b;
    } else {
      forall host, port, a, b | MaySetAddress(m, a, host, port) && MaySetAddress(m, b, host, port) ensures a == b {
        UnmentionedAgree(m, a, b, host, port);
      }
    }
  }

  lemma Decimal7080()
    ensures Decimal(7080) == "7080"
  {
    assert DecimalNat(708) == DecimalNat(70) + "8" && DecimalNat(70) == "70";
    assert DecimalNat(7080) == DecimalNat(708) + "0";
  }

  /** With a second host key the address of the first is replaced or left. */
  lemma AddressOfEither(m: Bindings, k: string, port: int)
    requires m == map["host" := Str("a"), "Host" := Str("b"), k := Str("a:0")]
    requires k != PORT_KEY && !IsHostKey(k) && k != "host" && k != "Host"
    ensures MayGet(m, HOST_KEYS, "a") && MayGet(m, HOST_KEYS, "b")
    ensures k in Redirected(m, "a", port) && Redirected(m, "a", port)[k] == Str(Addr(LOOPBACK, port))
    ensures k in Redirected(m, "b", port) && Redirected(m, "b", port)[k] == Str("a:0")
  {
    hide Decimal, ReplaceAll, EqualFold, MayGet, PortOf, Contains;
    EitherAnswers(m);
    PortMeaning(m);
    var g, h := Addr("a", PortOf(m)), Addr("b", PortOf(m));
    assert g == "a:0" && h == "b:0" by { PortZero(); AddrSplits("a", 0); AddrSplits("b", 0); }
    ReplaceAfter("", "a:0", Addr(LOOPBACK, port));
    assert "" + "a:0" == "a:0" && "" + Addr(LOOPBACK, port) == Addr(LOOPBACK, port);
    assert !Contains("a:0", "b:0") by { assert "a:0"[0] != "b:0"[0]; ShortHoldsNot("a:0", "b:0"); }
    ReplaceNone("a:0", "b:0", Addr(LOOPBACK, port));
  }

  /** Credentials that `SetAddress` can rewrite in two ways when it sets the local
      address: one points the url at the tunnel and the other leaves it. */
  lemma AmbiguousAddress() returns (m: Bindings, a: Bindings, b: Bindings)
    ensures m == map["host" := Str("a"), "Host" := Str("b"), "url" := Str("a:0")]
    ensures MaySetAddress(m, a, LOOPBACK, 7080) && "url" in a && a["url"] == Str("127.0.0.1:7080")
    ensures MaySetAddress(m, b, LOOPBACK, 7080) && "url" in b && b["url"] == Str("a:0")
  {
    hide Decimal, Rewritten, EqualFold, MayGet, PortOf;
    m := map["host" := Str("a"), "Host" := Str("b"), "url" := Str("a:0")];
    UrlIsNotHostKey();
    AddressOfEither(m, "url", 7080);
    Decimal7080();
    assert Addr(LOOPBACK, 7080) == "127.0.0.1:7080";
    a, b := Redirected(m, "a", 7080), Redirected(m, "b", 7080);
  }

  lemma UrlIsNotHostKey()
    ensures !IsHostKey("url")
  {
    assert |"url"| != |"host"| && |"url"| != |"hostname"|;
  }

  lemma ShortHoldsNot(s: string, text: string)
    requires |s| == |text| && s != text
    ensures !Contains(s, text)
  {
  }

  lemma UnmentionedAgree(m: Bindings, a: Bindings, b: Bindings, host: string, port: int)
    requires !MentionsOwnAddress(m) && MaySetAddress(m, a, host, port) && MaySetAddress(m, b, host, port)
    ensures a == b
  {
    hide ReplaceAll, MayGet, Decimal, Contains, MentionsElsewhere;
    var g :| MayGet(m, HOST_KEYS, g) && a == Rewrite(m, Addr(g, PortOf(m)), host, port);
    var h :| MayGet(m, HOST_KEYS, h) && b == Rewrite(m, Addr(h, PortOf(m)), host, port);
    UnmentionedIsKept(m, Addr(g, PortOf(m)), host, port);
    UnmentionedIsKept(m, Addr(h, PortOf(m)), host, port);
    forall k | k in a ensures a[k] == b[k] {
      assert k in m || k == PORT_KEY;
    }
  }

  // ------------------------------------------------- what the rewrite loses

  lemma BorderAt(w: string, n: nat, i: int)
    requires 0 <= i < n < |w| && HasSuffix(w, w[..n])
    ensures w[i] == w[|w| - n + i]
  {
    assert w[i] == w[..n][i] == w[|w| - n..][i];
  }

  /** A border of "127.0.0.1:" followed by digits is one of "1", "12" and "127". */
  lemma BorderLength(w: string, d: string, n: nat)
    requires d != "" && forall i | 0 <= i < |d| :: IsDigit(d[i])
    requires w == LOOPBACK + ":" + d
    requires 0 < n < |w| && HasSuffix(w, w[..n])
    ensures n <= 3 && n <= |d|
  {
    assert |w| == 10 + |d| && w[9] == ':' && w[3] == '.';
    assert forall i | 0 <= i < 9 :: w[i] != ':';
    assert w[10..] == d;
    if n > |d| {
      BorderAt(w, n, n - |d| - 1);
    } else if n > 3 {
      BorderAt(w, n, 3);
    }
  }

  lemma SuffixOfDigits(w: string, d: string, n: nat)
    requires w == LOOPBACK + ":" + d && n <= |d| && n <= 3
    ensures HasSuffix(w, w[..n]) <==> HasSuffix(d, LOOPBACK[..n])
  {
    assert w[|w| - n..] == d[|d| - n..];
    assert w[..n] == LOOPBACK[..n];
  }

  /** The number ends in a beginning of "127.0.0.1" that is all digits. */
  predicate EndsLikeLoopback(port: nat) {
    exists n | 1 <= n <= 3 :: HasSuffix(Decimal(port), LOOPBACK[..n])
  }

  lemma EndsLikeLoopbackIff(port: nat)
    ensures EndsLikeLoopback(port) <==>
      HasSuffix(Decimal(port), "1") || HasSuffix(Decimal(port), "12") || HasSuffix(Decimal(port), "127")
  {
    assert LOOPBACK[..1] == "1" && LOOPBACK[..2] == "12" && LOOPBACK[..3] == "127";
  }

  /** The local address has a border exactly when its port ends in 1, 12 or 127. */
  lemma LoopbackBorderIff(port: nat)
    ensures HasBorder(Addr(LOOPBACK, port)) <==> EndsLikeLoopback(port)
  {
    var d := Decimal(port);
    var w := Addr(LOOPBACK, port);
    if HasBorder(w) {
      var n :| 0 < n < |w| && HasSuffix(w, w[..n]);
      BorderLength(w, d, n);
      SuffixOfDigits(w, d, n);
      assert HasSuffix(d, LOOPBACK[..n]);
    }
    if EndsLikeLoopback(port) {
      var n :| 1 <= n <= 3 && HasSuffix(d, LOOPBACK[..n]);
      SuffixOfDigits(w, d, n);
      assert HasSuffix(w, w[..n]);
    }
  }

  /** Replacing any text by `newText` and then back gives every string that did
      not hold `newText` back. */
  ghost predicate Undoable(newText: string)
    requires newText != ""
  {
    forall oldText: string, s: string | oldText != "" && !Contains(s, newText) ::
      ReplaceAll(ReplaceAll(s, oldText, newText), newText, oldText) == s
  }

  /** Replacing by `newText` and then back does not give `s` again, though it did
      not hold `newText`. */
  predicate Loses(s: string, oldText: string, newText: string)
    requires oldText != "" && newText != ""
  {
    !Contains(s, newText) && ReplaceAll(ReplaceAll(s, oldText, newText), newText, oldText) != s
  }

  lemma {:induction false} ReplaceAfter(before: string, sep: string, newText: string)
    requires sep != "" && forall i | 0 <= i < |before| :: before[i] != sep[0]
    ensures ReplaceAll(before + sep, sep, newText) == before + newText
  {
    var s := before + sep;
    if before == "" {
      assert s == sep && s[|sep|..] == "";
    } else {
      assert s[0] == before[0] != sep[0];
      ReplaceAfter(before[1..], sep, newText);
      assert s[1..] == before[1..] + sep;
      assert [before[0]] + (before[1..] + newText) == before + newText;
    }
  }

  lemma BorderSlides(w: string, n: nat)
    requires 0 < n < |w| && HasSuffix(w, w[..n])
    ensures w <= w[..|w| - n] + w
  {
    assert w == w[..|w| - n] + w[..n] && w == w[..n] + w[n..];
    assert w[..|w| - n] + w == w + w[n..];
  }

  /** A border of the new text loses a string: the part of `w` in front of the
      border, followed by the old text, becomes `w` followed by something. */
  lemma BorderLoses(w: string, n: nat, oldText: string)
    requires 0 < n < |w| && HasSuffix(w, w[..n])
    requires oldText != "" && oldText[0] !in w && |oldText| < |w|
    ensures Loses(w[..|w| - n] + oldText, oldText, w) && !Undoable(w)
  {
    hide Contains, HasSuffix;
    var head := w[..|w| - n];
    var s := head + oldText;
    ReplaceAfter(head, oldText, w);
    BorderSlides(w, n);
    var back := ReplaceAll(head + w, w, oldText);
    assert back[0] == oldText[0] && s[0] == w[0];
    HoldsNot(head, oldText, w);
  }

  lemma Decimal7081()
    ensures Decimal(7081) == "7081"
  {
    assert DecimalNat(708) == DecimalNat(70) + "8" && DecimalNat(70) == "70";
    assert DecimalNat(7081) == DecimalNat(708) + "1";
  }

  /** A string that the rewrite to port 7081 and back does not restore. */
  lemma LostText()
    ensures Addr(LOOPBACK, 7081) == "127.0.0.1:7081"
    ensures Loses("127.0.0.1:708h:1", "h:1", "127.0.0.1:7081")
  {
    hide Decimal, ReplaceAll, Contains;
    Decimal7081();
    var w := "127.0.0.1:7081";
    assert w[..1] == "1" == w[13..] && w[..13] == "127.0.0.1:708";
    BorderLoses(w, 1, "h:1");
    assert w[..|w| - 1] + "h:1" == "127.0.0.1:708h:1";
  }

  /** A text too long for what stands before and after a character it lacks does not occur. */
  lemma HoldsNot(head: string, oldText: string, w: string)
    requires oldText != "" && oldText[0] !in w && |oldText| < |w| && |head| < |w|
    ensures !Contains(head + oldText, w)
  {
    var s := head + oldText;
    forall i | 0 <= i <= |s| ensures !OccursAt(s, w, i) {
      if i + |w| <= |s| {
        assert i <= |head| < i + |w|;
        assert s[i..i + |w|][|head| - i] == oldText[0];
      }
    }
  }

  /** The rewrite to the local address loses nothing, whatever the old address
      and the string, exactly for the ports that do not end in 1, 12 or 127. */
  lemma RewriteIsUndoableIff(port: nat)
    ensures Undoable(Addr(LOOPBACK, port)) <==> !EndsLikeLoopback(port)
  {
    var w := Addr(LOOPBACK, port);
    LoopbackBorderIff(port);
    if HasBorder(w) {
      var n :| 0 < n < |w| && HasSuffix(w, w[..n]);
      assert w == LOOPBACK + ":" + DecimalNat(port);
      assert 'h' !in LOOPBACK && 'h' !in DecimalNat(port);
      BorderLoses(w, n, "h:1");
    } else {
      forall oldText: string, s: string | oldText != "" && !Contains(s, w)
        ensures ReplaceAll(ReplaceAll(s, oldText, w), w, oldText) == s
      {
        ReplaceRoundTrip(s, oldText, w);
      }
    }
  }
}
