/** ssh/tunnel.go:60-181 as a system of steps: `Start` and `Stop` under the lock,
    the goroutine that fetches one-time codes into a channel of three, and one
    accept loop per listener, interleaved in any order. */
module TunnelSteps {
  import opened Services
  import opened Retrying

  /** Who holds the lock: a `Start` that has appended this many listeners and
      may have one more open, or a `Stop` that has closed this many. */
  datatype Lock = Free | Starting(appended: nat, pending: Option<nat>) | Stopping(closed: nat)

  /** An accept loop: waiting for a connection, waiting for a code for one, dialling
      with the code, reporting a failed accept, or over. `tries` counts the codes taken. */
  datatype Loop =
    | Idle
    | Waiting(conn: nat, tries: nat)
    | Dialling(conn: nat, tries: nat, code: nat)
    | Failing
    | Dead

  /** What a `Start` or `Stop` that returned has done; a failed `Start` had opened
      this many listeners. */
  datatype Op = StartOk | StartFailed(count: nat) | StartRefused | StopOk | StopIdle

  /** A code taken for a connection. */
  datatype Attempt = Attempt(conn: nat, code: nat)

  /** A connection dialled with a code, and whether that worked. */
  datatype Dial = Dial(conn: nat, code: nat, worked: bool)

  /** Listeners are numbered as they are opened, channels as they are made,
      connections as they are accepted and codes as they are fetched. `attempts`,
      `dials`, `finished` and `ops` are history. */
  datatype State = State(
    lock: Lock,
    shutdown: Option<nat>,
    channels: nat,
    closed: seq<nat>,
    listeners: seq<nat>,
    listened: nat,
    open: set<nat>,
    passwords: bool,
    hands: seq<Option<nat>>,
    fetched: nat,
    buffer: seq<nat>,
    loops: seq<Loop>,
    accepted: nat,
    attempts: seq<Attempt>,
    dials: seq<Dial>,
    finished: map<nat, nat>,
    ops: seq<Op>)

  const INITIAL: State :=
    State(Free, None, 0, [], [], 0, {}, false, [], 0, [], [], 0, [], [], map[], [])

  const CAPACITY := 3

  datatype Label =
    | StartBegin | Refuse | Listen | Append | ListenFails | StartEnd
    | StopBegin | StopNothing | Close | StopEnd
    | Fetch(p: nat) | Push(p: nat)
    | Accept(l: nat) | AcceptFails(l: nat) | Report(l: nat) | Take(l: nat) | DialWorks(l: nat) | DialFails(l: nat)

  /** Whether a tunnel with `n` forwards can take the step. */
  predicate Enabled(n: nat, s: State, a: Label) {
    match a
    case StartBegin => s.lock == Free && s.shutdown.None?
    case Refuse => s.lock == Free && s.shutdown.Some?
    case Listen => s.lock.Starting? && s.lock.pending.None? && s.lock.appended < n
    case Append => s.lock.Starting? && s.lock.pending.Some?
    case ListenFails => s.lock.Starting? && s.lock.pending.None? && s.lock.appended < n
    case StartEnd => s.lock.Starting? && s.lock.pending.None? && s.lock.appended >= n
    case StopBegin => s.lock == Free && s.shutdown.Some?
    case StopNothing => s.lock == Free && s.shutdown.None?
    case Close => s.lock.Stopping? && s.lock.closed < |s.listeners|
    case StopEnd => s.lock.Stopping? && s.lock.closed >= |s.listeners| && s.shutdown.Some?
    case Fetch(p) => p < |s.hands| && s.hands[p].None?
    case Push(p) => p < |s.hands| && s.hands[p].Some? && |s.buffer| < CAPACITY
    case Accept(l) => l < |s.loops| && s.loops[l] == Idle && l in s.open
    case AcceptFails(l) => l < |s.loops| && s.loops[l] == Idle
    case Report(l) => l < |s.loops| && s.loops[l] == Failing && s.lock == Free
    case Take(l) => l < |s.loops| && s.loops[l].Waiting? && s.buffer != []
    case DialWorks(l) => l < |s.loops| && s.loops[l].Dialling?
    case DialFails(l) => l < |s.loops| && s.loops[l].Dialling?
  }

  /** The step. */
  function After(n: nat, s: State, a: Label): State
    requires Enabled(n, s, a)
  {
    match a
    case StartBegin =>
      s.(lock := Starting(0, None), passwords := true, hands := if s.passwords then s.hands else s.hands + [None])
    case Refuse => s.(ops := s.ops + [StartRefused])
    case Listen =>
      s.(lock := Starting(s.lock.appended, Some(s.listened)), listened := s.listened + 1,
         open := s.open + {s.listened}, loops := s.loops + [Idle])
    case Append => s.(lock := Starting(s.lock.appended + 1, None), listeners := s.listeners + [s.lock.pending.value])
    case ListenFails => s.(lock := Free, ops := s.ops + [StartFailed(s.lock.appended)])
    case StartEnd =>
      s.(lock := Free, shutdown := Some(s.channels), channels := s.channels + 1, ops := s.ops + [StartOk])
    case StopBegin => s.(lock := Stopping(0))
    case StopNothing => s.(ops := s.ops + [StopIdle])
    case Close => s.(lock := Stopping(s.lock.closed + 1), open := s.open - {s.listeners[s.lock.closed]})
    case StopEnd => s.(lock := Free, closed := s.closed + [s.shutdown.value], shutdown := None, ops := s.ops + [StopOk])
    case Fetch(p) => s.(hands := s.hands[p := Some(s.fetched)], fetched := s.fetched + 1)
    case Push(p) => s.(hands := s.hands[p := None], buffer := s.buffer + [s.hands[p].value])
    case Accept(l) => s.(loops := s.loops[l := Waiting(s.accepted, 0)], accepted := s.accepted + 1)
    case AcceptFails(l) => s.(loops := s.loops[l := Failing])
    case Report(l) => s.(loops := s.loops[l := Dead])
    case Take(l) =>
      var w := s.loops[l];
      s.(loops := s.loops[l := Dialling(w.conn, w.tries + 1, s.buffer[0])], buffer := s.buffer[1..],
         attempts := s.attempts + [Attempt(w.conn, s.buffer[0])])
    case DialWorks(l) =>
      var d := s.loops[l];
      s.(loops := s.loops[l := Idle], finished := s.finished[d.conn := d.tries],
         dials := s.dials + [Dial(d.conn, d.code, true)])
    case DialFails(l) =>
      var d := s.loops[l];
      var t := s.(dials := s.dials + [Dial(d.conn, d.code, false)]);
      if GivesUp(d.tries) then t.(loops := s.loops[l := Idle], finished := s.finished[d.conn := d.tries])
      else t.(loops := s.loops[l := Waiting(d.conn, d.tries)])
  }

  ghost predicate Next(n: nat, s: State, t: State) {
    exists a :: Enabled(n, s, a) && t == After(n, s, a)
  }

  /** A run: any number of steps from the initial state. */
  ghost predicate IsRun(n: nat, run: seq<State>) {
    && run != [] && run[0] == INITIAL
    && forall i | 0 <= i < |run| - 1 :: Next(n, run[i], run[i + 1])
  }

  // ------------------------------------------------------------- invariants

  /** Whether a `Start` succeeded with no completed `Stop` since. */
  function Running(ops: seq<Op>): bool {
    if ops == [] then false
    else match ops[|ops| - 1]
      case StartOk => true
      case StopOk => false
      case _ => Running(ops[..|ops| - 1])
  }

  /** How many of the listeners opened last have not been closed since. */
  function Left(n: nat, ops: seq<Op>): nat {
    if ops == [] then 0
    else
      var before := ops[..|ops| - 1];
      match ops[|ops| - 1]
      case StartOk => Left(n, before) + n
      case StartFailed(k) => Left(n, before) + k
      case StopOk => 0
      case _ => Left(n, before)
  }

  /** Whether a `Start` since the last successful `Stop` failed after opening one. */
  function Leaked(ops: seq<Op>): bool {
    if ops == [] then false
    else
      var before := ops[..|ops| - 1];
      match ops[|ops| - 1]
      case StartFailed(k) => k > 0 || Leaked(before)
      case StopOk => false
      case _ => Leaked(before)
  }

  lemma RunningMore(ops: seq<Op>, o: Op)
    ensures Running(ops + [o]) == if o == StartOk then true else if o == StopOk then false else Running(ops)
  {
    assert (ops + [o])[..|ops|] == ops;
  }

  lemma LeftMore(n: nat, ops: seq<Op>, o: Op)
    ensures Left(n, ops + [o]) == match o
      case StartOk => Left(n, ops) + n
      case StartFailed(k) => Left(n, ops) + k
      case StopOk => 0
      case _ => Left(n, ops)
  {
    assert (ops + [o])[..|ops|] == ops;
  }

  /** While nothing runs, something is left exactly if a failed `Start` left it. */
  lemma {:induction false} LeftIffLeaked(n: nat, ops: seq<Op>)
    requires !Running(ops)
    ensures Left(n, ops) == 0 <==> !Leaked(ops)
  {
    if ops != [] && !ops[|ops| - 1].StopOk? { LeftIffLeaked(n, ops[..|ops| - 1]); }
  }

  /** How many of the listeners opened last are still to be closed, with those of a
      `Start` under way. */
  function Unclosed(n: nat, s: State): nat {
    Left(n, s.ops)
    + if s.lock.Starting? then s.lock.appended + (if s.lock.pending.Some? then 1 else 0) else 0
  }

  /** The open listeners are exactly those opened last, as far back as the history
      of calls says, without those that a `Stop` under way has closed. */
  ghost predicate Openness(n: nat, s: State) {
    && Unclosed(n, s) <= s.listened
    && forall l: nat :: l in s.open <==>
        s.listened - Unclosed(n, s) <= l < s.listened && (s.lock.Stopping? ==> l >= s.lock.closed)
  }

  /** The shutdown channel is set exactly while running, except inside the calls
      that change this, and no channel is closed twice or while it is set. */
  ghost predicate Channels(s: State) {
    && s.shutdown.Some? == Running(s.ops)
    && (s.lock.Starting? ==> s.shutdown.None?) && (s.lock.Stopping? ==> s.shutdown.Some?)
    && (s.shutdown.Some? ==> s.shutdown.value < s.channels && s.shutdown.value !in s.closed)
    && (forall i, j | 0 <= i < j < |s.closed| :: s.closed[i] != s.closed[j])
    && forall i | 0 <= i < |s.closed| :: s.closed[i] < s.channels
  }

  /** The list holds every listener ever opened, in order, except one that `Start`
      is about to append; each has its accept loop; `Stop` has closed the first ones. */
  ghost predicate Listeners(n: nat, s: State) {
    && (forall i | 0 <= i < |s.listeners| :: s.listeners[i] == i)
    && |s.loops| == s.listened
    && (if s.lock.Starting? && s.lock.pending.Some?
        then s.lock.pending == Some(|s.listeners|) && s.listened == |s.listeners| + 1
        else s.listened == |s.listeners|)
    && (forall l | l in s.open :: l < s.listened)
    && (s.lock.Starting? ==>
          && s.lock.appended <= |s.listeners|
          && if s.lock.pending.Some? then s.lock.appended < n else s.lock.appended <= n)
    && (s.lock.Stopping? ==> s.lock.closed <= |s.listeners| && forall l | l in s.open :: l >= s.lock.closed)
  }

  /** What the producer holds. */
  function InHand(hands: seq<Option<nat>>): seq<nat> {
    if |hands| == 1 && hands[0].Some? then [hands[0].value] else []
  }

  function CodesOf(attempts: seq<Attempt>): (cs: seq<nat>)
    ensures |cs| == |attempts|
  {
    seq(|attempts|, i requires 0 <= i < |attempts| => attempts[i].code)
  }

  function UpTo(n: nat): (s: seq<nat>)
    ensures |s| == n
  {
    seq(n, i => i)
  }

  /** There is one producer at most, and the codes spent, waiting in the channel
      and in hand are, in this order, the codes fetched. */
  ghost predicate Codes(s: State) {
    && |s.hands| == (if s.passwords then 1 else 0) && |s.buffer| <= CAPACITY
    && CodesOf(s.attempts) + s.buffer + InHand(s.hands) == UpTo(s.fetched)
  }

  /** The codes taken for a connection, in order. */
  function CodesFor(attempts: seq<Attempt>, conn: nat): seq<nat> {
    if attempts == [] then []
    else
      var last := attempts[|attempts| - 1];
      CodesFor(attempts[..|attempts| - 1], conn) + if last.conn == conn then [last.code] else []
  }

  /** The dials of a connection, in order. */
  function DialsFor(dials: seq<Dial>, conn: nat): seq<Dial> {
    if dials == [] then []
    else
      var last := dials[|dials| - 1];
      DialsFor(dials[..|dials| - 1], conn) + if last.conn == conn then [last] else []
  }

  /** The dials, in order, used these codes. */
  predicate DialledWith(ds: seq<Dial>, codes: seq<nat>) {
    |ds| == |codes| && forall k | 0 <= k < |ds| :: ds[k].code == codes[k]
  }

  predicate AllFailed(ds: seq<Dial>) {
    forall k | 0 <= k < |ds| :: !ds[k].worked
  }

  /** The last dial worked and the ones before it did not, or all of 11 failed. */
  predicate Concluded(ds: seq<Dial>) {
    && ds != [] && AllFailed(ds[..|ds| - 1])
    && (ds[|ds| - 1].worked || |ds| == MAX_RETRIES + 1)
  }

  predicate Busy(w: Loop) {
    w.Waiting? || w.Dialling?
  }

  /** The loop counts the codes spent on its connection: at most 10 while it may
      go on, at most 11 with the attempt under way. */
  ghost predicate Counts(s: State, w: Loop) {
    && (Busy(w) ==> w.conn < s.accepted && w.conn !in s.finished && w.tries == |CodesFor(s.attempts, w.conn)|)
    && (w.Waiting? ==> w.tries <= MAX_RETRIES)
    && (w.Dialling? ==> 1 <= w.tries <= MAX_RETRIES + 1)
  }

  ghost predicate BusyWith(s: State, l: nat, conn: nat) {
    l < |s.loops| && Busy(s.loops[l]) && s.loops[l].conn == conn
  }

  /** Every accepted connection is either in the hands of one loop or finished,
      and a finished one has spent between 1 and 11 codes. */
  ghost predicate Connections(s: State) {
    && (forall l | 0 <= l < |s.loops| :: Counts(s, s.loops[l]))
    && (forall l: nat, m: nat, c: nat | BusyWith(s, l, c) && BusyWith(s, m, c) :: l == m)
    && (forall c | c in s.finished ::
          c < s.accepted && 1 <= s.finished[c] <= MAX_RETRIES + 1 && s.finished[c] == |CodesFor(s.attempts, c)|)
    && (forall i | 0 <= i < |s.attempts| :: s.attempts[i].conn < s.accepted)
    && (forall c: nat | c < s.accepted && c !in s.finished :: exists l: nat :: BusyWith(s, l, c))
  }

  /** The dials of the connection a loop is busy with all failed, each with the
      next code taken for it; the code it dials with now is the last one. */
  ghost predicate Tried(s: State, w: Loop) {
    Busy(w) ==>
      var ds, codes := DialsFor(s.dials, w.conn), CodesFor(s.attempts, w.conn);
      AllFailed(ds) && if w.Waiting? then DialledWith(ds, codes)
                       else codes != [] && DialledWith(ds, codes[..|codes| - 1]) && codes[|codes| - 1] == w.code
  }

  /** A connection is tried until the first dial that works, 11 times at most. */
  ghost predicate Dials(s: State) {
    && (forall l | 0 <= l < |s.loops| :: Tried(s, s.loops[l]))
    && (forall c | c in s.finished ::
          Concluded(DialsFor(s.dials, c)) && DialledWith(DialsFor(s.dials, c), CodesFor(s.attempts, c)))
    && (forall i | 0 <= i < |s.dials| :: s.dials[i].conn < s.accepted)
  }

  ghost predicate Invariant(n: nat, s: State) {
    Channels(s) && Listeners(n, s) && Openness(n, s) && Codes(s) && Connections(s) && Dials(s)
  }

  // ------------------------------------------------------ one step keeps them

  lemma ChannelsStep(n: nat, s: State, a: Label)
    requires Channels(s) && Enabled(n, s, a)
    ensures Channels(After(n, s, a))
  {
    hide Running;
    forall o { RunningMore(s.ops, o); }
  }

  lemma ListenersStep(n: nat, s: State, a: Label)
    requires Channels(s) && Listeners(n, s) && Enabled(n, s, a)
    ensures Listeners(n, After(n, s, a))
  {
  }

  lemma OpennessStep(n: nat, s: State, a: Label)
    requires Listeners(n, s) && Openness(n, s) && Enabled(n, s, a)
    ensures Openness(n, After(n, s, a))
  {
    hide Left;
    forall o { LeftMore(n, s.ops, o); }
  }

  lemma CodesStep(n: nat, s: State, a: Label)
    requires Codes(s) && Enabled(n, s, a)
    ensures Codes(After(n, s, a))
  {
    var t := After(n, s, a);
    match a {
      case Fetch(p) =>
        assert UpTo(t.fetched) == UpTo(s.fetched) + [s.fetched];
      case Take(l) =>
        assert CodesOf(t.attempts) == CodesOf(s.attempts) + [s.buffer[0]];
        assert CodesOf(t.attempts) + t.buffer == CodesOf(s.attempts) + s.buffer;
      case Push(p) =>
        assert t.buffer + InHand(t.hands) == s.buffer + InHand(s.hands);
        assert CodesOf(s.attempts) + s.buffer + InHand(s.hands) == CodesOf(s.attempts) + (s.buffer + InHand(s.hands));
      case _ =>
    }
  }

  /** Nothing about connections changes, but a listener may get its loop. */
  lemma ConnectionsSame(s: State, t: State)
    requires Connections(s) && t.accepted == s.accepted && t.finished == s.finished && t.attempts == s.attempts
    requires |t.loops| >= |s.loops| && forall l | 0 <= l < |t.loops| ::
      if l < |s.loops| && Busy(s.loops[l]) then t.loops[l] == s.loops[l] else !Busy(t.loops[l])
    ensures Connections(t)
  {
    assert forall l: nat, c: nat :: BusyWith(t, l, c) <==> BusyWith(s, l, c);
  }

  lemma AcceptStep(s: State, t: State, l: nat)
    requires Connections(s) && l < |s.loops| && !Busy(s.loops[l])
    requires t == s.(loops := s.loops[l := Waiting(s.accepted, 0)], accepted := s.accepted + 1)
    ensures Connections(t)
  {
    NothingSpent(s.attempts, s.accepted);
    assert forall m: nat, c: nat | m != l :: BusyWith(t, m, c) <==> BusyWith(s, m, c);
    assert BusyWith(t, l, s.accepted);
  }

  lemma {:induction false} NothingSpent(attempts: seq<Attempt>, conn: nat)
    requires forall i | 0 <= i < |attempts| :: attempts[i].conn != conn
    ensures CodesFor(attempts, conn) == []
  {
    if attempts != [] { NothingSpent(attempts[..|attempts| - 1], conn); }
  }

  lemma SpendOne(attempts: seq<Attempt>, a: Attempt, conn: nat)
    ensures CodesFor(attempts + [a], conn) == CodesFor(attempts, conn) + if a.conn == conn then [a.code] else []
  {
    assert (attempts + [a])[..|attempts|] == attempts;
  }

  lemma TakeStep(s: State, t: State, l: nat, code: nat)
    requires Connections(s) && l < |s.loops| && s.loops[l].Waiting?
    requires t.loops == s.loops[l := Dialling(s.loops[l].conn, s.loops[l].tries + 1, code)]
    requires t.attempts == s.attempts + [Attempt(s.loops[l].conn, code)] && t.accepted == s.accepted
    requires t.finished == s.finished
    ensures Connections(t)
  {
    forall c: nat
      ensures CodesFor(t.attempts, c) == CodesFor(s.attempts, c) + if c == s.loops[l].conn then [code] else []
    {
      SpendOne(s.attempts, Attempt(s.loops[l].conn, code), c);
    }
    assert forall m: nat, c: nat :: BusyWith(t, m, c) <==> BusyWith(s, m, c);
    forall m | 0 <= m < |t.loops| ensures Counts(t, t.loops[m]) {
      assert Counts(s, s.loops[m]) && Counts(s, s.loops[l]);
      if m != l && Busy(t.loops[m]) { assert BusyWith(s, m, s.loops[m].conn) && BusyWith(s, l, s.loops[l].conn); }
    }
  }

  /** The attempt under way is over and the loop goes on with the connection. */
  lemma TryAgainStep(s: State, t: State, l: nat)
    requires Connections(s) && l < |s.loops| && s.loops[l].Dialling? && !GivesUp(s.loops[l].tries)
    requires t == s.(loops := s.loops[l := Waiting(s.loops[l].conn, s.loops[l].tries)], dials := t.dials)
    ensures Connections(t)
  {
    assert forall m: nat, c: nat :: BusyWith(t, m, c) <==> BusyWith(s, m, c);
    assert Counts(s, s.loops[l]);
  }

  /** The attempt under way is over and so is the connection's turn. */
  lemma FinishStep(s: State, t: State, l: nat)
    requires Connections(s) && l < |s.loops| && s.loops[l].Dialling?
    requires t == s.(loops := s.loops[l := Idle], finished := s.finished[s.loops[l].conn := s.loops[l].tries],
                     dials := t.dials)
    ensures Connections(t)
  {
    var conn := s.loops[l].conn;
    assert Counts(s, s.loops[l]) && BusyWith(s, l, conn);
    assert forall m: nat, c: nat | m != l :: BusyWith(t, m, c) <==> BusyWith(s, m, c);
    forall m | 0 <= m < |t.loops| ensures Counts(t, t.loops[m]) {
      if m != l && Busy(t.loops[m]) { assert BusyWith(s, m, s.loops[m].conn); }
    }
  }

  lemma ConnectionsStep(n: nat, s: State, a: Label)
    requires Connections(s) && Enabled(n, s, a)
    ensures Connections(After(n, s, a))
  {
    hide Connections;
    var t := After(n, s, a);
    match a {
      case Accept(l) => AcceptStep(s, t, l);
      case Take(l) => TakeStep(s, t, l, s.buffer[0]);
      case DialWorks(l) => FinishStep(s, t, l);
      case DialFails(l) => if GivesUp(s.loops[l].tries) { FinishStep(s, t, l); } else { TryAgainStep(s, t, l); }
      case _ => ConnectionsSame(s, t);
    }
  }

  lemma DialOne(dials: seq<Dial>, d: Dial, conn: nat)
    ensures DialsFor(dials + [d], conn) == DialsFor(dials, conn) + if d.conn == conn then [d] else []
  {
    assert (dials + [d])[..|dials|] == dials;
  }

  lemma {:induction false} NothingDialled(dials: seq<Dial>, conn: nat)
    requires forall i | 0 <= i < |dials| :: dials[i].conn != conn
    ensures DialsFor(dials, conn) == []
  {
    if dials != [] { NothingDialled(dials[..|dials| - 1], conn); }
  }

  lemma DialsSame(s: State, t: State)
    requires Dials(s) && t.accepted >= s.accepted && t.finished == s.finished && t.attempts == s.attempts
    requires t.dials == s.dials
    requires |t.loops| >= |s.loops| && forall l | 0 <= l < |t.loops| ::
      if l < |s.loops| && Busy(s.loops[l]) then t.loops[l] == s.loops[l] else Tried(t, t.loops[l])
    ensures Dials(t)
  {
    hide DialsFor, CodesFor;
  }

  lemma AcceptTried(s: State, t: State, l: nat)
    requires Connections(s) && Dials(s) && l < |s.loops| && !Busy(s.loops[l])
    requires t == s.(loops := s.loops[l := Waiting(s.accepted, 0)], accepted := s.accepted + 1)
    ensures Dials(t)
  {
    NothingSpent(s.attempts, s.accepted);
    NothingDialled(s.dials, s.accepted);
    assert Tried(t, t.loops[l]);
    DialsSame(s, t);
  }

  lemma TakeTried(s: State, t: State, l: nat, code: nat)
    requires Connections(s) && Dials(s) && l < |s.loops| && s.loops[l].Waiting?
    requires t.loops == s.loops[l := Dialling(s.loops[l].conn, s.loops[l].tries + 1, code)]
    requires t.attempts == s.attempts + [Attempt(s.loops[l].conn, code)] && t.accepted == s.accepted
    requires t.finished == s.finished && t.dials == s.dials
    ensures Dials(t)
  {
    hide DialsFor, CodesFor;
    var conn := s.loops[l].conn;
    forall c: nat ensures CodesFor(t.attempts, c) == CodesFor(s.attempts, c) + if c == conn then [code] else [] {
      SpendOne(s.attempts, Attempt(conn, code), c);
    }
    assert Tried(s, s.loops[l]) && Counts(s, s.loops[l]);
    forall m | 0 <= m < |t.loops| ensures Tried(t, t.loops[m]) {
      assert Tried(s, s.loops[m]);
      if m != l && Busy(t.loops[m]) { assert BusyWith(s, m, s.loops[m].conn) && BusyWith(s, l, conn); }
    }
  }

  /** The result of a dial is added to those of its connection. */
  lemma DialTried(s: State, t: State, l: nat, worked: bool)
    requires Connections(s) && Dials(s) && l < |s.loops| && s.loops[l].Dialling?
    requires t.dials == s.dials + [Dial(s.loops[l].conn, s.loops[l].code, worked)]
    requires t.attempts == s.attempts && t.accepted == s.accepted
    requires if worked || GivesUp(s.loops[l].tries)
             then t.loops == s.loops[l := Idle] && t.finished == s.finished[s.loops[l].conn := s.loops[l].tries]
             else t.finished == s.finished && t.loops == s.loops[l := Waiting(s.loops[l].conn, s.loops[l].tries)]
    ensures Dials(t)
  {
    hide DialsFor, CodesFor, AllFailed, Concluded, DialledWith;
    var d := Dial(s.loops[l].conn, s.loops[l].code, worked);
    forall c: nat
      ensures DialsFor(t.dials, c) == if c == d.conn then DialsFor(s.dials, c) + [d] else DialsFor(s.dials, c)
    {
      DialOne(s.dials, d, c);
    }
    assert Tried(s, s.loops[l]) && Counts(s, s.loops[l]);
    forall m | 0 <= m < |t.loops| && m != l ensures Tried(t, t.loops[m]) {
      assert Tried(s, s.loops[m]);
      if Busy(t.loops[m]) { assert BusyWith(s, m, s.loops[m].conn) && BusyWith(s, l, d.conn); }
    }
    OneMoreDial(DialsFor(s.dials, d.conn), CodesFor(s.attempts, d.conn), d);
  }

  /** All dials so far failed, and the next used the last code. */
  lemma OneMoreDial(ds: seq<Dial>, codes: seq<nat>, d: Dial)
    requires AllFailed(ds) && codes != [] && DialledWith(ds, codes[..|codes| - 1]) && codes[|codes| - 1] == d.code
    ensures DialledWith(ds + [d], codes)
    ensures if d.worked || |codes| == MAX_RETRIES + 1 then Concluded(ds + [d]) else AllFailed(ds + [d])
  {
    assert (ds + [d])[..|ds|] == ds;
  }

  lemma DialsStep(n: nat, s: State, a: Label)
    requires Connections(s) && Dials(s) && Enabled(n, s, a)
    ensures Dials(After(n, s, a))
  {
    hide DialsFor, CodesFor, Dials, Connections;
    var t := After(n, s, a);
    match a {
      case Accept(l) => AcceptTried(s, t, l);
      case Take(l) => TakeTried(s, t, l, s.buffer[0]);
      case DialWorks(l) => DialTried(s, t, l, true);
      case DialFails(l) => DialTried(s, t, l, false);
      case _ => DialsSame(s, t);
    }
  }

  lemma InvariantStep(n: nat, s: State, a: Label)
    requires Invariant(n, s) && Enabled(n, s, a)
    ensures Invariant(n, After(n, s, a))
  {
    hide Channels, Listeners, Openness, Codes, Connections, Dials, After, Enabled;
    ChannelsStep(n, s, a);
    ListenersStep(n, s, a);
    OpennessStep(n, s, a);
    CodesStep(n, s, a);
    ConnectionsStep(n, s, a);
    DialsStep(n, s, a);
  }

  /** The invariant holds in every state of every run. */
  lemma {:induction false} InvariantAlways(n: nat, run: seq<State>, i: nat)
    requires IsRun(n, run) && i < |run|
    ensures Invariant(n, run[i])
  {
    hide After, Enabled;
    if i == 0 {
      assert CodesOf([]) + [] + InHand([]) == UpTo(0);
    } else {
      InvariantAlways(n, run, i - 1);
      assert Next(n, run[i - 1], run[i - 1 + 1]);
      var a :| Enabled(n, run[i - 1], a) && run[i] == After(n, run[i - 1], a);
      InvariantStep(n, run[i - 1], a);
    }
  }

  // ------------------------------------------------- what every run is like

  lemma CodeAt(s: State, k: nat)
    requires Codes(s) && k < |s.attempts|
    ensures s.attempts[k].code == k
  {
    assert CodesOf(s.attempts)[k] == (CodesOf(s.attempts) + s.buffer + InHand(s.hands))[k];
  }

  /** In every state of every run there is at most one producer, the codes are
      spent in the order they were fetched and none of them twice, and at most
      four have been fetched and not spent. */
  lemma OneTimeCodes(n: nat, run: seq<State>, i: nat)
    requires IsRun(n, run) && i < |run|
    ensures |run[i].hands| <= 1
    ensures forall k | 0 <= k < |run[i].attempts| :: run[i].attempts[k].code == k
    ensures forall j, k | 0 <= j < k < |run[i].attempts| :: run[i].attempts[j].code != run[i].attempts[k].code
    ensures |run[i].attempts| <= run[i].fetched <= |run[i].attempts| + 4
  {
    hide Channels, Listeners, Openness, Connections, Dials, IsRun;
    InvariantAlways(n, run, i);
    forall k | 0 <= k < |run[i].attempts| ensures run[i].attempts[k].code == k { CodeAt(run[i], k); }
  }

  /** In every state of every run, each connection accepted so far is in the hands
      of exactly one loop, or finished. It is finished exactly if its last dial
      worked or 11 have failed; every dial before the last failed; and each used
      the next code taken for it, of which there is one more at most. */
  lemma ConnectionsEnd(n: nat, run: seq<State>, i: nat, conn: nat)
    requires IsRun(n, run) && i < |run| && conn < run[i].accepted
    ensures conn in run[i].finished <==> !exists l: nat :: BusyWith(run[i], l, conn)
    ensures forall l: nat, m: nat | BusyWith(run[i], l, conn) && BusyWith(run[i], m, conn) :: l == m
    ensures var ds, codes := DialsFor(run[i].dials, conn), CodesFor(run[i].attempts, conn);
      && (conn in run[i].finished <==> ds != [] && (ds[|ds| - 1].worked || |ds| == 11))
      && (forall k | 0 <= k < |ds| - 1 :: !ds[k].worked) && |ds| <= 11
      && |ds| <= |codes| <= |ds| + 1 && (conn in run[i].finished ==> |codes| == |ds|)
      && forall k | 0 <= k < |ds| :: ds[k].code == codes[k]
  {
    hide Channels, Listeners, Openness, Codes, IsRun, DialsFor, CodesFor;
    InvariantAlways(n, run, i);
    var s := run[i];
    if l: nat :| BusyWith(s, l, conn) {
      assert Counts(s, s.loops[l]) && Tried(s, s.loops[l]);
    } else {
      var ds := DialsFor(s.dials, conn);
      assert forall k | 0 <= k < |ds| - 1 :: ds[k] == ds[..|ds| - 1][k];
    }
  }

  /** A step of one loop. */
  lemma LoopGoesOn(n: nat, s: State, a: Label, l: nat, conn: nat)
    requires Connections(s) && BusyWith(s, l, conn) && Enabled(n, s, a)
    ensures BusyWith(After(n, s, a), l, conn) || conn in After(n, s, a).finished
  {
  }

  /** Once accepted a connection stays with its loop until it is finished. */
  lemma StaysWithItsLoop(n: nat, run: seq<State>, i: nat, l: nat, conn: nat)
    requires IsRun(n, run) && i + 1 < |run| && BusyWith(run[i], l, conn)
    ensures BusyWith(run[i + 1], l, conn) || conn in run[i + 1].finished
  {
    hide After, Enabled, Channels, Listeners, Openness, Codes, Connections, Dials;
    InvariantAlways(n, run, i);
    assert Next(n, run[i], run[i + 1]);
    var a :| Enabled(n, run[i], a) && run[i + 1] == After(n, run[i], a);
    LoopGoesOn(n, run[i], a, l, conn);
  }

  /** The loop accepts nothing any more. */
  predicate Over(w: Loop) {
    w == Failing || w == Dead
  }

  lemma LoopStaysOver(n: nat, s: State, a: Label, l: nat)
    requires l < |s.loops| && Over(s.loops[l]) && Enabled(n, s, a)
    ensures l < |After(n, s, a).loops| && Over(After(n, s, a).loops[l])
  {
  }

  /** A loop whose accept failed never accepts again. */
  lemma {:induction false} FailedLoopIsOver(n: nat, run: seq<State>, i: nat, j: nat, l: nat)
    requires IsRun(n, run) && i <= j < |run| && l < |run[i].loops| && Over(run[i].loops[l])
    ensures l < |run[j].loops| && Over(run[j].loops[l])
    decreases j
  {
    hide After, Enabled, Over;
    if i < j {
      FailedLoopIsOver(n, run, i, j - 1, l);
      assert Next(n, run[j - 1], run[j - 1 + 1]);
      var a :| Enabled(n, run[j - 1], a) && run[j] == After(n, run[j - 1], a);
      LoopStaysOver(n, run[j - 1], a, l);
    }
  }

  lemma FinishedStays(n: nat, s: State, a: Label, conn: nat)
    requires Connections(s) && conn in s.finished && Enabled(n, s, a)
    ensures var t := After(n, s, a);
      && conn in t.finished && CodesFor(t.attempts, conn) == CodesFor(s.attempts, conn)
      && DialsFor(t.dials, conn) == DialsFor(s.dials, conn)
  {
    hide CodesFor, DialsFor;
    match a {
      case Take(l) =>
        assert Counts(s, s.loops[l]);
        SpendOne(s.attempts, Attempt(s.loops[l].conn, s.buffer[0]), conn);
      case DialWorks(l) =>
        assert Counts(s, s.loops[l]);
        DialOne(s.dials, Dial(s.loops[l].conn, s.loops[l].code, true), conn);
      case DialFails(l) =>
        assert Counts(s, s.loops[l]);
        DialOne(s.dials, Dial(s.loops[l].conn, s.loops[l].code, false), conn);
      case _ =>
    }
  }

  /** After a dial of it worked, or 11 failed, no code is taken for a connection
      and it is not dialled any more. */
  lemma {:induction false} NoCodeAfterTheEnd(n: nat, run: seq<State>, i: nat, j: nat, conn: nat)
    requires IsRun(n, run) && i <= j < |run| && conn in run[i].finished
    ensures conn in run[j].finished && CodesFor(run[j].attempts, conn) == CodesFor(run[i].attempts, conn)
    ensures DialsFor(run[j].dials, conn) == DialsFor(run[i].dials, conn)
    decreases j
  {
    hide After, Enabled, Channels, Listeners, Openness, Codes, Connections, Dials, CodesFor, DialsFor;
    if i < j {
      NoCodeAfterTheEnd(n, run, i, j - 1, conn);
      InvariantAlways(n, run, j - 1);
      assert Next(n, run[j - 1], run[j - 1 + 1]);
      var a :| Enabled(n, run[j - 1], a) && run[j] == After(n, run[j - 1], a);
      FinishedStays(n, run[j - 1], a, conn);
    }
  }

  lemma OnlyAcceptAccepts(n: nat, s: State, a: Label)
    requires Enabled(n, s, a) && After(n, s, a).accepted > s.accepted
    ensures a.Accept?
  {
  }

  /** A connection is accepted by a waiting loop whose listener is open. */
  lemma AcceptsIfOpen(n: nat, s: State, t: State)
    requires Next(n, s, t) && t.accepted > s.accepted
    ensures t.accepted == s.accepted + 1
    ensures exists l: nat :: l < |s.loops| && l in s.open && s.loops[l] == Idle && BusyWith(t, l, s.accepted)
  {
    hide After, Enabled;
    var a :| Enabled(n, s, a) && t == After(n, s, a);
    OnlyAcceptAccepts(n, s, a);
    AcceptsAt(n, s, a);
  }

  lemma AcceptsAt(n: nat, s: State, a: Label)
    requires Enabled(n, s, a) && a.Accept?
    ensures var t := After(n, s, a);
      t.accepted == s.accepted + 1 && a.l < |s.loops| && a.l in s.open && s.loops[a.l] == Idle
      && BusyWith(t, a.l, s.accepted)
  {
  }

  /** In every state of every run in which the lock is free: the shutdown channel
      is set exactly if a `Start` has succeeded with no `Stop` since; the list
      holds every listener ever opened; no channel was closed twice. */
  lemma StartAndStop(n: nat, run: seq<State>, i: nat)
    requires IsRun(n, run) && i < |run| && run[i].lock == Free
    ensures run[i].shutdown.Some? <==> Running(run[i].ops)
    ensures run[i].listeners == UpTo(run[i].listened) && |run[i].loops| == run[i].listened
    ensures forall l | l in run[i].open :: l in run[i].listeners
    ensures forall j, k | 0 <= j < k < |run[i].closed| :: run[i].closed[j] != run[i].closed[k]
  {
    hide Codes, Connections, Dials, IsRun;
    InvariantAlways(n, run, i);
    assert forall l | l in run[i].open :: run[i].listeners[l] == l;
  }

  /** While it runs and nobody stops it, no step changes the listeners, the
      channel or the producer; in particular `Start` is refused. */
  lemma RunningIsStable(n: nat, s: State, a: Label)
    requires s.lock == Free && s.shutdown.Some? && Enabled(n, s, a) && a != StopBegin
    ensures var t := After(n, s, a);
      && t.lock == Free && t.shutdown == s.shutdown && t.closed == s.closed && t.listeners == s.listeners
      && t.open == s.open && |t.loops| == |s.loops| && |t.hands| == |s.hands| && t.passwords == s.passwords
      && (a == Refuse ==> t == s.(ops := s.ops + [StartRefused]))
      && a != StartBegin
  {
  }

  /** The step with which a `Stop` returns. */
  predicate EndsStop(a: Label) {
    a == StopEnd || a == StopNothing
  }

  /** In every state of every run in which the lock is free, the listeners open are
      the last ones opened, as many as the history of calls has left. */
  lemma OpenListeners(n: nat, run: seq<State>, i: nat)
    requires IsRun(n, run) && i < |run| && run[i].lock == Free
    ensures Left(n, run[i].ops) <= run[i].listened
    ensures forall l: nat :: l in run[i].open <==> run[i].listened - Left(n, run[i].ops) <= l < run[i].listened
  {
    hide Channels, Listeners, Codes, Connections, Dials, IsRun, Left;
    InvariantAlways(n, run, i);
  }

  /** A `Stop` returns with no listener open exactly if it found the tunnel running
      or no `Start` since the last successful `Stop` had failed after opening one. */
  lemma StopLeavesNoneOpenIff(n: nat, run: seq<State>, i: nat, a: Label)
    requires IsRun(n, run) && i < |run| && Enabled(n, run[i], a) && EndsStop(a)
    ensures After(n, run[i], a).open == {} <==> Running(run[i].ops) || !Leaked(run[i].ops)
  {
    hide Codes, Connections, Dials, IsRun, Left, Leaked;
    InvariantAlways(n, run, i);
    var s := run[i];
    if a == StopEnd {
      assert After(n, s, a).open == {};
    } else {
      LeftIffLeaked(n, s.ops);
      if Left(n, s.ops) > 0 { assert s.listened - 1 in s.open; }
    }
  }

  /** A `Start` that opens its first listener and fails at the second leaves it
      open, and the `Stop` after it does not close it. */
  lemma PartialStartLeaks(n: nat) returns (run: seq<State>)
    requires n >= 2
    ensures IsRun(n, run)
    ensures var last := run[|run| - 1];
      last.ops == [StartFailed(1), StopIdle] && last.lock == Free && last.open == {0} && last.loops == [Idle]
  {
    run := [INITIAL];
    run := OneStep(n, run, StartBegin);
    run := OneStep(n, run, Listen);
    run := OneStep(n, run, Append);
    run := OneStep(n, run, ListenFails);
    run := OneStep(n, run, StopNothing);
  }

  // ------------------------------------------- whole calls among other steps

  function Ids(from: nat, count: nat): (ids: seq<nat>)
    ensures |ids| == count
  {
    seq(count, i => from + i)
  }

  /** From `s` to `t` a `Start` has opened this many listeners, in order. */
  ghost predicate HasOpened(s: State, t: State, count: nat) {
    && t.listeners == s.listeners + Ids(s.listened, count)
    && forall l: nat :: l in t.open <==> l in s.open || s.listened <= l < t.listened
  }

  /** What a whole `Start` does, as `SSHTunnel.Start` of the sequential view has it:
      on success every forward has its listener, in order, and the tunnel runs; on
      failure some first ones have and it does not run. */
  ghost predicate ActsLikeStart(n: nat, s: State, t: State) {
    && t.ops != [] && t.ops[..|t.ops| - 1] == s.ops
    && match t.ops[|t.ops| - 1]
       case StartOk => HasOpened(s, t, n) && t.listened == s.listened + n && t.shutdown.Some?
       case StartFailed(k) => k < n && HasOpened(s, t, k) && t.listened == s.listened + k && t.shutdown.None?
       case _ => false
  }

  /** What a whole `Stop` of a running tunnel does, as `SSHTunnel.Stop` has it. */
  ghost predicate ActsLikeStop(s: State, t: State) {
    t.ops == s.ops + [StopOk] && t.listeners == s.listeners && t.open == {} && t.shutdown.None?
  }

  /** A `Start` that began in `s` has got as far as `t`. */
  ghost predicate Opening(s: State, t: State) {
    && t.lock.Starting? && t.ops == s.ops && t.shutdown.None? && HasOpened(s, t, t.lock.appended)
    && t.listened == s.listened + t.lock.appended + if t.lock.pending.Some? then 1 else 0
  }

  lemma StartBegins(n: nat, s: State, a: Label)
    requires Enabled(n, s, a) && s.lock == Free && After(n, s, a).lock.Starting? && Listeners(n, s)
    ensures Opening(s, After(n, s, a))
  {
    assert Ids(s.listened, 0) == [];
  }

  lemma StartGoesOn(n: nat, s: State, t: State, a: Label)
    requires Enabled(n, t, a) && After(n, t, a).lock.Starting? && Listeners(n, t) && Opening(s, t)
    ensures Opening(s, After(n, t, a))
  {
    if a == Append {
      var k := t.lock.appended;
      assert Ids(s.listened, k + 1) == Ids(s.listened, k) + [s.listened + k];
    }
  }

  lemma StartEnds(n: nat, s: State, t: State, a: Label)
    requires Enabled(n, t, a) && After(n, t, a).lock == Free && Listeners(n, t) && Opening(s, t)
    ensures ActsLikeStart(n, s, After(n, t, a))
  {
    var u := After(n, t, a);
    assert u.ops[..|u.ops| - 1] == s.ops;
  }

  lemma {:induction false} DuringStart(n: nat, run: seq<State>, i: nat, m: nat)
    requires IsRun(n, run) && i < m < |run| && run[i].lock == Free && forall x | i < x <= m :: run[x].lock.Starting?
    ensures Opening(run[i], run[m])
  {
    hide After, Enabled, Opening, Channels, Listeners, Openness, Codes, Connections, Dials;
    assert Next(n, run[m - 1], run[m - 1 + 1]);
    var a :| Enabled(n, run[m - 1], a) && run[m] == After(n, run[m - 1], a);
    InvariantAlways(n, run, m - 1);
    if m == i + 1 {
      StartBegins(n, run[i], a);
    } else {
      DuringStart(n, run, i, m - 1);
      StartGoesOn(n, run[i], run[m - 1], a);
    }
  }

  /** Whatever other goroutines do meanwhile, a `Start` acts as a whole. */
  lemma StartActsWhole(n: nat, run: seq<State>, i: nat, j: nat)
    requires IsRun(n, run) && i + 1 < j < |run| && run[i].lock == Free && run[j].lock == Free
    requires forall x | i < x < j :: run[x].lock.Starting?
    ensures ActsLikeStart(n, run[i], run[j])
  {
    hide After, Enabled, Opening, Channels, Listeners, Openness, Codes, Connections, Dials, ActsLikeStart;
    DuringStart(n, run, i, j - 1);
    InvariantAlways(n, run, j - 1);
    assert Next(n, run[j - 1], run[j - 1 + 1]);
    var a :| Enabled(n, run[j - 1], a) && run[j] == After(n, run[j - 1], a);
    StartEnds(n, run[i], run[j - 1], a);
  }

  lemma StopGoesOn(n: nat, t: State, a: Label)
    requires Enabled(n, t, a) && After(n, t, a).lock.Stopping?
    ensures After(n, t, a).ops == t.ops && After(n, t, a).listeners == t.listeners
  {
  }

  lemma StopEnds(n: nat, s: State, t: State, a: Label)
    requires Enabled(n, t, a) && t.lock.Stopping? && After(n, t, a).lock == Free && Listeners(n, t)
    requires t.ops == s.ops && t.listeners == s.listeners
    ensures ActsLikeStop(s, After(n, t, a))
  {
    assert a == StopEnd;
  }

  lemma {:induction false} DuringStop(n: nat, run: seq<State>, i: nat, m: nat)
    requires IsRun(n, run) && i < m < |run| && run[i].lock == Free && forall x | i < x <= m :: run[x].lock.Stopping?
    ensures run[m].ops == run[i].ops && run[m].listeners == run[i].listeners
  {
    hide After, Enabled;
    assert Next(n, run[m - 1], run[m - 1 + 1]);
    var a :| Enabled(n, run[m - 1], a) && run[m] == After(n, run[m - 1], a);
    StopGoesOn(n, run[m - 1], a);
    if m > i + 1 { DuringStop(n, run, i, m - 1); }
  }

  /** And so does a `Stop` that found the tunnel running. */
  lemma StopActsWhole(n: nat, run: seq<State>, i: nat, j: nat)
    requires IsRun(n, run) && i + 1 < j < |run| && run[i].lock == Free && run[j].lock == Free
    requires forall x | i < x < j :: run[x].lock.Stopping?
    ensures ActsLikeStop(run[i], run[j])
  {
    hide After, Enabled, Channels, Listeners, Openness, Codes, Connections, Dials, ActsLikeStop;
    DuringStop(n, run, i, j - 1);
    InvariantAlways(n, run, j - 1);
    assert Next(n, run[j - 1], run[j - 1 + 1]);
    var a :| Enabled(n, run[j - 1], a) && run[j] == After(n, run[j - 1], a);
    StopEnds(n, run[i], run[j - 1], a);
  }

  lemma OneStep(n: nat, run: seq<State>, a: Label) returns (more: seq<State>)
    requires IsRun(n, run) && Enabled(n, run[|run| - 1], a)
    ensures IsRun(n, more) && more == run + [After(n, run[|run| - 1], a)]
  {
    hide After, Enabled;
    more := run + [After(n, run[|run| - 1], a)];
    assert Next(n, run[|run| - 1], more[|run|]);
    forall i | 0 <= i < |more| - 1 ensures Next(n, more[i], more[i + 1]) {
      if i < |run| - 1 { assert Next(n, run[i], run[i + 1]); }
    }
  }
}
