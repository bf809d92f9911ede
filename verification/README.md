# cf conduit: bindings, tunnels and the life of an app, verified

`cf conduit` lends a local program the services of a Cloud Foundry space. It
creates an app (or borrows one), binds the services to it, plans local ports,
rewrites the bound credentials so that they point at those ports, opens an SSH
forward per service (with a TLS tunnel in front of it where the program cannot
do TLS itself), runs the program, and destroys the app it made.

This project models that logic in Dafny 4.11 and proves what it keeps.
`dafny verify dfyconfig.toml` checks everything.

## How it is laid out

| file | what it holds |
|---|---|
| `GoStrings.dfy` | decimal printing and parsing, unlimited replacement, case folding and string order as Go's library has them |
| `Credentials.dfy` | `client/credentials.go`: the credentials object, its lookups and `SetAddress` |
| `World.dfy` | the client, the network and the file system: every call may answer anything and is recorded in a trace |
| `Services.dfy` | the four providers of `service/` |
| `Plan.dfy`, `PlanFacts.dfy` | the planner as a pass over the bindings in visiting order, and what holds of every pass |
| `Routing.dfy`, `ProgramView.dfy` | where rewritten addresses lead, and what the program is told |
| `Determinism.dfy`, `Variables.dfy` | what of the plan and of the environment can depend on Go's map order |
| `Tunnels.dfy` | the SSH and TLS tunnel objects, call by call |
| `Vcap.dfy`, `Visit.dfy`, `App.dfy` | the decoded listing, the bookkeeping of the in-place pass, and the `App` class with all its methods |
| `Guarantees.dfy` | the main results, said of what a successful set-up leaves in the `App` object and of whole runs |
| `Lifecycle.dfy`, `Order.dfy`, `Run.dfy` | the calls of a run, stage by stage, what each of them waits for, and `RunE` |
| `Retry.dfy`, `TunnelSteps.dfy` | the retry loop, and the SSH tunnel as a system of interleaved steps |
| `Fingerprint.dfy` | the host key check, with base64 (sections 3.2 and 4 of RFC 4648) and hexadecimal |

Go maps are visited in an arbitrary order: each loop over a map picks any
remaining key. A lookup that several keys can answer is a relation (`MayGet`),
so that independence of the order is a theorem and not an assumption. The
planner method is proved to compute `PassAfter`, a fold of `Step` over the
bindings, and the theorems are about that fold and about the objects it
describes.

Some properties hold only under a condition, and the condition is then proved to
be exact:

- a rewrite to `127.0.0.1:port` can be undone for every string exactly if the
  port does not end in 1, 12 or 127;
- a second `SetAddress` changes nothing exactly if there is a host key, or the
  host to set is empty, or no string but "port" holds the old or the new port
  after a colon;
- a lookup has one answer exactly if the keys that fold to the first matching
  name print alike;
- `SetAddress` is independent of the map order, whatever is set, exactly if the
  host lookup has one answer or no string holds an address it may look for;
- what is kept and how planning ends never depend on the map order; the forwards
  do not, and with them the whole plan does not, exactly if for every kept binding
  the host lookup has one answer and so has the TLS answer where it matters;
- the rewritten credentials, which VCAP_SERVICES shows, do not exactly if for every
  kept binding that TLS answer is one and its credentials, rewritten to its port,
  come out the same whichever of its hosts is looked for;
- all variables but MYSQL_HOME and VCAP_SERVICES do not exactly if, in the listed
  credentials of the program's own binding rewritten to its port, each lookup for
  its variables has one answer, whichever of the hosts was looked for;
- `Stop` leaves no listener open exactly if it found the tunnel running or no
  `Start` since the last successful `Stop` had failed after opening one, since it
  does not close what a failed `Start` left behind (ssh/tunnel.go:83-90, 173).

For each of the failing cases there is a lemma with a concrete input.

The comment on `get` (client/credentials.go:13) promises the first existing
key's value. With several keys that fold to one name the code answers with any
of them; the model follows the code.

## Model

| member | source | states |
|---|---|---|
| `GoStrings.AtoiDecimal` | client/credentials.go:29-32 | reading back a printed port gives the port, for every 64-bit number |
| `GoStrings.DecimalMeaning` | client/credentials.go:72 | a port is printed with digits only, without needless zeros, after a minus sign if it is negative |
| `GoStrings.SplitIsLeftmost` | client/credentials.go:75 | dividing at a separator gives the pieces between its leftmost non-overlapping occurrences, and joining them gives the text back |
| `GoStrings.LeftmostIsSplit` | client/credentials.go:75 | there is only one such division |
| `GoStrings.ReplaceIsSplitJoin` | client/credentials.go:75 | replacing all occurrences is dividing at the old text and joining with the new |
| `GoStrings.ReplaceRoundTrip` | client/credentials.go:73-77 | replacing by a text without border that was not there before is undone by replacing back |
| `ServiceCredentials.Credentials.Get` | client/credentials.go:14-23 | the answer is the printed value of some key that folds to the first name any key folds to, else "" |
| `ServiceCredentials.MayGetIff` | client/credentials.go:14-23 | an answer is the value of a key that folds to the first of the names that any key folds to, or "" if there is none |
| `GoStrings.EqualFoldIff` | client/credentials.go:17 | a key folds to a name exactly if they have the same length and each character is that of the name, its capital, the long s for s or the Kelvin sign for k |
| `ServiceCredentials.Credentials.Host` | client/credentials.go:25-27 | the answer is one the keys host and hostname allow |
| `ServiceCredentials.Credentials.Port` | client/credentials.go:29-32 | only the exact key port counts: without it the answer is 0, otherwise the number its printed value stands for |
| `ServiceCredentials.PortMeaning` | client/credentials.go:29-32 | no port is 0, a JSON number and the decimal form of a 64-bit number are that number, and any other value is what its printed form stands for |
| `GoStrings.AtoiMeaning` | client/credentials.go:30 | a signed text of digits stands for its value cut to 64 bits, any other text for 0 unless the digits it starts with exceed 64 bits already |
| `ServiceCredentials.Credentials.IsTLSEnabled` | client/credentials.go:54-68 | true exactly if a flag or one of two addresses, as looked up, asks for TLS |
| `ServiceCredentials.TLSMeaning` | client/credentials.go:54-68 | the answers are those of a flag under tls, tls_enabled or tlsenabled that reads as true, or of "ssl=true" in small letters or capitals in one of two addresses |
| `GoStrings.HoldsSSLIff` | client/credentials.go:60-65 | lower-casing and searching finds "ssl=true" exactly if these letters stand somewhere, each small or capital |
| `ServiceCredentials.Credentials.SetAddress` | client/credentials.go:70-85 | both loops together, in any order, produce exactly one rewritten map for the host that was found |
| `ServiceCredentials.GetIsUniqueIff` | client/credentials.go:14-23 | a lookup has one possible answer exactly if the keys folding to the first matching name print alike |
| `ServiceCredentials.TwoAnswers` | client/credentials.go:14-23 | credentials whose host lookup has two answers |
| `ServiceCredentials.CoherentGetIsUnique` | client/credentials.go:14-23 | map order cannot be observed when keys that fold together hold the same value |
| `ServiceCredentials.ReadBack` | client/credentials.go:70-85 | after `SetAddress` the port and, if there was any host key, the host read back as set, whatever key is met first |
| `ServiceCredentials.RewriteMeaning` | client/credentials.go:70-85 | every other string keeps its pieces between the occurrences of the old address and gets the new one at each; other values stay; only the key port may be added |
| `ServiceCredentials.SetAddressIdempotent` | client/credentials.go:70-85 | with a host key, a second call with the same arguments changes nothing |
| `ServiceCredentials.SetAddressIdempotentIff` | client/credentials.go:70-85 | exactly which maps a second call with the same arguments would change |
| `ServiceCredentials.SetAddressTwice` | client/credentials.go:70-85 | a map that a second call does change |
| `ServiceCredentials.SetAddressIsDeterminedIff` | client/credentials.go:70-85 | exactly for which maps the result never depends on the map order, whatever address is set |
| `ServiceCredentials.AmbiguousAddress` | client/credentials.go:70-85 | credentials that, set to 127.0.0.1 and port 7080, come out with the url pointed there or left as it was |
| `ServiceCredentials.RewriteKeepsCoherent` | client/credentials.go:79-84 | the rewrite keeps keys that fold together in agreement |
| `ServiceCredentials.LoopbackBorderIff` | conduit/app.go:357 | the local address overlaps itself exactly if the decimal form of its port ends in a digit prefix of the loopback address |
| `ServiceCredentials.EndsLikeLoopbackIff` | conduit/app.go:357 | these ports are those ending in 1, 12 or 127 |
| `ServiceCredentials.RewriteIsUndoableIff` | conduit/app.go:357 | the rewrite to the local address loses nothing, for all strings and old addresses, exactly for the other ports |
| `ServiceCredentials.LostText` | conduit/app.go:357 | a string that the rewrite to port 7081 and back does not restore |
| `Services.Provider.IsTLSEnabled` | service/redis.go:13-15 | redis also counts a rediss address as TLS, influxdb never does |
| `Services.ServiceTLSMeaning` | service/redis.go:13-15 | for redis an address starting with "rediss" is TLS too, and influxdb never is |
| `Services.Provider.InitEnv` | service/mysql.go:22-52 | sets the variables of its kind for the first service; for mysql a directory is made and my.cnf written into it, MYSQL_HOME is set exactly if both worked, and nothing else is done outside |
| `Services.Provider.MyCnfFor` | service/mysql.go:34-44 | both sections of my.cnf hold the login that was looked up and the port |
| `Guarantees.MyCnfIsLines` | service/mysql.go:34-44 | my.cnf line by line: the section mysql with user, password, host, port and database, then mysqldump with the first four |
| `Services.Provider.AdditionalProgramArgs` | service/influxdb.go:34-49 | the arguments name host and port of the first kept binding, and there are none without one |
| `Services.Provider.Teardown` | service/mysql.go:54-60 | mysql removes the directory it made, if any; the others do nothing |
| `Services.ClientsAreDisjoint` | service/redis.go:29-31 | no program is claimed by two kinds of service |
| `PlanFacts.SlotsAreOrdered` | conduit/app.go:301-315 | types are visited in the order of `sort.Strings`: a proper prefix first, else the smaller first difference |
| `GoStrings.LessIff` | conduit/app.go:308 | comparing character by character puts a proper prefix first and otherwise goes by the first difference, the smaller character first |
| `GoStrings.SortedTypes` | conduit/app.go:308 | Redis, influxdb, mysql, postgres, redis and redis-2 stand in this order |
| `Visiting.SortedKeys` | conduit/app.go:301-308 | the service types, each once, in that order |
| `PlanFacts.MySQLComesFirst` | conduit/app.go:301-340 | with a mysql and a postgres binding and port 7080, mysql gets 7080 and postgres 7081 |
| `PlanFacts.SlotsHoldEverything` | conduit/app.go:315-317 | the visit loses no binding and keeps the order of each list |
| `PlanFacts.SortedIsUnique` | conduit/app.go:304-308 | a set of types has one sorted listing |
| `PlanFacts.WaitsAlways` | conduit/app.go:310-330 | at every point the names still waiting are the requested ones not met yet, and a pass ends only at the first occurrence of one under an unknown type |
| `PlanFacts.Selection` | conduit/app.go:317-333 | what is kept is exactly the first occurrences of requested names, in order, with one forward and one rewritten map each |
| `PlanFacts.KeptAndWaitingCount` | conduit/app.go:310-333 | kept bindings, waiting names and the unknown one add up to the distinct requested names |
| `PlanFacts.KeptOfIsOrdered` | conduit/app.go:371-377 | cutting the kept bindings down to one type keeps their order and loses none |
| `PlanFacts.PortsAreConsecutive` | conduit/app.go:335-355 | the ports issued are consecutive from the first, without gap or repeat, and the next free one is right behind them |
| `PlanFacts.ForwardsFit` | conduit/app.go:335-357 | the i-th forward and rewrite belong to the i-th kept binding; it has a TLS port exactly for a TLS redis service and a client without TLS |
| `PlanFacts.ClientIsFirst` | conduit/app.go:359-367 | the environment is set up for the first kept binding whose provider knows the program and for no other |
| `PlanFacts.Classification` | conduit/app.go:324-405 | which outcome occurs, said from names, bindings, providers and program alone, with the precedence of errors |
| `Routing.ConsecutiveIsApart` | conduit/app.go:335-355 | consecutive ports from above 0 are never shared between forwards |
| `Routing.RouteOfForward` | ssh/tunnel.go:33-45 | from the port to connect to, the remote address of that forward is reached and nothing else, in two hops with TLS and one without |
| `Routing.RoutesEndToEnd` | conduit/app.go:335-357 | for every kept binding the rewritten port leads exactly to the address held before, and no port is on two routes |
| `Determinism.ChoicesAreFixed` | conduit/app.go:315-378 | whatever the lookups answer, the same bindings are kept, the same names are waiting, and the program is set up for the same binding |
| `Determinism.OutcomeIsFixed` | conduit/app.go:324-405 | whatever the lookups answer, planning ends in the same way |
| `Determinism.PlanIsFixedIff` | conduit/app.go:335-357 | forwards, ports and rewritten credentials are the same in all passes exactly if for every kept binding the host lookup has one answer and the TLS answer is one where it matters |
| `Determinism.RewritesAreFixedIff` | conduit/app.go:350-357 | the rewritten credentials of all kept bindings are the same in all passes exactly if the TLS answers that matter are one each and every binding, rewritten to its port, comes out the same whichever of its hosts is looked for |
| `Determinism.AmbiguousHostShows` | conduit/app.go:335-338 | two passes over a binding with two host keys that plan different forwards, though its rewritten credentials are always the same |
| `Determinism.CoherentIsFixed` | client/credentials.go:14-23 | keys that fold together and hold the same value are enough for the plan |
| `Determinism.RedisTLSIsUniqueIff` | service/redis.go:13-15 | the TLS answer of redis is one exactly if one of its four tests always passes or all always fail |
| `Determinism.AmbiguousTLSShows` | conduit/app.go:342-353 | two passes over a redis binding with two keys about TLS that take one port and two |
| `Variables.VarsAreFixedIff` | conduit/app.go:357-367 | all variables but MYSQL_HOME are the same in all passes exactly if each lookup for the variables of the program has one answer in the listed credentials of its own binding, rewritten to the first port plus the number of bindings kept before, whichever of its hosts was looked for |
| `Variables.AmbiguousUserShows` | service/postgres.go:23-27 | two passes over a binding with two user names that set PGUSER to the one and to the other |
| `Variables.AmbiguousHostShowsInUser` | conduit/app.go:357-367 | two passes over a binding with two hosts that set PGUSER differently, since the user name reads like the address of one of them; the rewritten credentials differ too |
| `Variables.EnvIsFixed` | conduit/app.go:359-367 | where these lookups have one answer each, any two passes agree in those variables, and in all if the program is not one of mysql's |
| `Variables.CoherentClientIsFixed` | service/postgres.go:23-27 | coherent credentials of the program's own binding are enough for that |
| `Determinism.PlanIsDetermined` | conduit/app.go:301-405 | two runs on equal inputs sort alike, keep the same bindings and end alike; with the lookups above fixed they plan alike |
| `ProgramView.OneTypeKnows` | conduit/app.go:546-556 | one registered type at most knows a program, so the order of providers does not matter |
| `ProgramView.TypeOfProgram` | service/postgres.go:41-43 | each known program with the one registered type that speaks it; any other program has none |
| `ProgramView.TLSForRedisCli` | conduit/app.go:342-353 | a TLS tunnel is wanted exactly for redis-cli and a redis binding that is TLS |
| `ProgramView.ClientIsFirstOfItsType` | conduit/app.go:359-367 | on success for a program, the binding it is set up for is the first kept one of the only type that knows it |
| `ProgramView.PostgresGetsThePlannedPort` | service/postgres.go:17-31 | PGPORT is the port to connect to of the forward for that binding |
| `ProgramView.ArgumentsNameThePlannedPort` | service/redis.go:33-43 | so is the port argument of redis-cli and of the influxdb programs |
| `Tunnels.SSHTunnel.Start` | ssh/tunnel.go:76-92 | refused while running; otherwise opens the forwards in order up to the first failure, appending each listener |
| `Tunnels.SSHTunnel.Forward` | ssh/tunnel.go:94-99 | a listener on the local address that relays to the remote one |
| `Tunnels.SSHTunnel.Stop` | ssh/tunnel.go:170-181 | closes every listener in the list if running, and otherwise none |
| `Tunnels.TLSTunnel.Start` | tls/tunnel.go:39-48 | there is a listener exactly if opening it worked |
| `Tunnels.TLSTunnel.Stop` | tls/tunnel.go:50-52 | closes the listener, which has to exist |
| `Tunnels.ServerNameIsHostIff` | tls/tunnel.go:92 | the part of the remote address before the first colon is its host exactly if that has no colon |
| `Guarantees.TLSTunnelExpectsItsServer` | conduit/app.go:487 | a TLS tunnel listens on the port a redis binding was rewritten to and checks the certificate against the host that binding named, if it has no colon |
| `Vcap.Decode` | client/client.go:109-123 | the decoded listing holds the fetched values in objects no two bindings share |
| `Conduit.App.KeepInstance` | conduit/app.go:331-368 | one kept binding: ports, forward, credentials, environment and the file that may be written change as the step of the plan says |
| `Conduit.App.PlanForward` | conduit/app.go:335-355 | takes one port, or two with TLS, and appends the forward for the address the binding held |
| `Conduit.App.VisitType` | conduit/app.go:316-369 | the inner loop is the pass over the bindings of one type, and collects what it kept |
| `Conduit.App.PlanType` | conduit/app.go:315-378 | after each type the listing is the original with visited types pruned |
| `Conduit.App.PlanBindings` | conduit/app.go:301-405 | the whole in-place pass computes the fold over all bindings and its outcome |
| `Conduit.App.InitServiceBindings` | conduit/app.go:292-418 | fetch, plan and export: on success listing, forwards, ports and environment are those of the fold over the fetched bindings; otherwise the outcome says why; in either case the files written are those for the program's binding |
| `Conduit.App.Init` | conduit/app.go:108-123 | org, then space, stopping at the first failure |
| `Conduit.App.StartNewApp` | conduit/app.go:191-217 | create, upload, start and wait, stopping at the first failure; the guid is kept whatever fails later |
| `Conduit.App.BindName` | conduit/app.go:250-269 | success means every instance of the name was bound once with usable credentials; failure says how it came about |
| `Conduit.App.BindServices` | conduit/app.go:238-272 | names are bound one after another, each completely, up to the first that fails |
| `Conduit.App.DeployApp` | conduit/app.go:125-135 | the bindings follow a complete deployment |
| `Conduit.App.PrepareForExistingApp` | conduit/app.go:137-189 | three lookups, then success exactly as the bindings of the instances found allow |
| `Conduit.App.StartSSHTunnels` | conduit/app.go:447-478 | every forward is opened, then every one awaited, stopping at the first failure; there is a listener for each that was opened, and the tunnel runs exactly if all were, also when a wait fails |
| `Conduit.App.StartTLSTunnels` | conduit/app.go:480-501 | a TLS tunnel from the TLS address to the local address of each forward that has one; those opened are remembered even when a later step fails |
| `Conduit.App.SetupTunnels` | conduit/app.go:431-445 | on success all planned listeners are open and form the net the plan asks for |
| `Conduit.App.GetProgramSpecificArgs` | conduit/app.go:546-556 | the arguments come from a provider that knows the program and the first binding left of its type |
| `Conduit.App.RunCommand` | conduit/app.go:503-544 | the added arguments come before the program's own, and the planned variables are its environment |
| `Conduit.App.DestroyOwnApp` | conduit/app.go:219-236 | one destroy, and a second only after a successful refresh of the token |
| `Conduit.App.Teardown` | conduit/app.go:558-588 | TLS tunnels, SSH tunnel, providers and app are each attempted in this order whatever fails, and the errors counted are the failed attempts |
| `Guarantees.PlannedSelection` | conduit/app.go:310-378 | on success one kept binding and one forward per distinct name; the listing has exactly the first occurrences, in order, and no empty type |
| `Guarantees.KeptBinding` | conduit/app.go:333-377 | each binding left comes from one the server listed under the same type, the first of its name |
| `Guarantees.LiveRoute` | conduit/app.go:335-357 | the rewritten credentials of a kept binding lead exactly to its old address through the planned net, and name this machine if they named a host |
| `Guarantees.EveryBindingIsRouted` | conduit/app.go:480-500 | through the net of planned listeners, every binding left in the listing leads exactly to the host and port the server gave for that name |
| `Guarantees.OpenTunnelsRoute` | conduit/app.go:431-445 | the same of the credentials objects and the listeners that are open after a successful set-up |
| `Guarantees.TwoRunsAgree` | conduit/app.go:292-418 | two successful set-ups from equal starts keep the same bindings; they agree in ports and forwards where the plan is fixed, in VCAP_SERVICES where the rewrites are, and in all other variables but MYSQL_HOME where those of the program's binding are |
| `Guarantees.ProgramIsTold` | conduit/app.go:503-556 | the program speaks one registered type and is told in its variables, its arguments or my.cnf the user, password and database of its first binding, this machine as host, and a port that leads exactly to the server; MYSQL_HOME is set exactly if my.cnf was written |
| `Guarantees.RunTellsTheProgram` | conduit.go:147-149 | the command a run records tells all this: in its arguments or its variables, or in the file the run wrote |
| `Lifecycle.BoundExactly` | conduit/app.go:249-270 | after binding succeeds an instance was bound exactly if its name was requested, and every name has one |
| `Lifecycle.BorrowedIff` | conduit/app.go:163-186 | with unique names an existing app is accepted exactly if all lookups work and every name has an instance that is bound to the app |
| `Lifecycle.TeardownIsCleanIff` | conduit/app.go:584-587 | no error is reported exactly if every attempt worked, a repeated destroy counting as one |
| `Lifecycle.DestroysOnlyItsOwn` | conduit/app.go:579-583 | whatever is destroyed was created earlier in the same run, and none of --no-delete, --reuse and --existing-app was given |
| `Lifecycle.DestroysWhatItCreated` | conduit/app.go:219-236 | an unprotected app that was created is destroyed last, with one call or two and a refresh between them |
| `Lifecycle.DestroysIff` | conduit.go:62-66 | something is destroyed exactly if none of the three flags is given and the run created an app with a guid |
| `Lifecycle.StagesAreValid` | conduit.go:123-149 | stages in order create or look up an app only first thing in the second stage and never destroy one |
| `CallOrder.EachCallWaits` | conduit/app.go:108-217 | in every run each call waits for the one it needs to have worked: the space for the org, the app for the space, its start for its bits, bindings for the listed instances, listeners for the fetched bindings, each wait for its listener |
| `CallOrder.FailureIsTheEnd` | conduit.go:123-149 | nothing but the teardown follows a call that failed, unless it was one of those that write my.cnf |
| `CallOrder.RunsBehindTunnels` | conduit/app.go:431-501 | when the program is run every local and TLS address of the plan has been opened and has answered |
| `CallOrder.CreatesOrFinds` | conduit.go:127-135 | an app is looked up under --existing-app and created otherwise |
| `CallOrder.BoundAsRequested` | conduit/app.go:238-272 | a new app is bound to exactly the instances with a requested name, each name having one, with credentials that have a host and a port |
| `CallOrder.DestroysAgain` | conduit/app.go:219-236 | a second destroy comes only after the first failed and the token was refreshed, and there is no third |
| `CallOrder.TeardownOrder` | conduit/app.go:558-588 | TLS tunnels are closed first, then the SSH tunnel is stopped, then directories are removed, and the app is destroyed last |
| `CallOrder.RemovesWhatItMade` | service/mysql.go:54-60 | in every run a directory that was made is removed once later, and nothing else is removed |
| `Command.NewApp` | conduit.go:106-115 | the app is to be deleted exactly if none of the three flags is given; four unused providers; nothing planned yet |
| `Command.Connect` | conduit.go:137-139 | the set-up stage; once planned there is a plan for what was fetched, even if a tunnel could not be opened; on success its net is open, and every TLS tunnel remembered has its listener |
| `Command.RunProgram` | conduit.go:147-149 | with every planned listener open the program is run in the planned environment |
| `Command.Session` | conduit.go:123-158 | the stages come in order, each only when the one before succeeded, and whatever was planned is the plan for the given names and port |
| `Command.SessionAndTeardown` | conduit.go:117-158 | however far the session got, a full teardown follows, and the SSH listeners are those of the calls that worked |
| `Command.LeftOpenIff` | ssh/tunnel.go:170-181 | after any run an SSH listener is open exactly if `Start` had failed after opening one; none is if all tunnels had been opened, whatever the program did |
| `Command.RunE` | conduit.go:50-158 | every run records exactly its stages in order and a full teardown, touches apps and files only as the ownership theorems need, and if it got as far as opening tunnels follows the plan made from its arguments |
| `Retrying.Retry` | util/retry.go:5-20 | at most 11 tries up to the first success; success exactly if one of the first 11 would succeed |
| `TunnelSteps.InvariantAlways` | ssh/tunnel.go:60-181 | the five invariants hold in every state of every interleaving |
| `TunnelSteps.OneTimeCodes` | ssh/tunnel.go:60-74 | one producer, codes taken in the order fetched, none twice, at most four fetched and not taken |
| `TunnelSteps.ConnectionsEnd` | ssh/tunnel.go:100-153 | each accepted connection is with exactly one loop or finished; finished exactly if its last dial worked or 11 have failed, every earlier dial having failed, each with the next code taken for it |
| `TunnelSteps.StaysWithItsLoop` | ssh/tunnel.go:112-147 | a connection stays with its loop from one state to the next until it is finished |
| `TunnelSteps.NoCodeAfterTheEnd` | util/retry.go:14-19 | once a dial of it worked or 11 failed, no code is taken for a connection and it is not dialled any more |
| `TunnelSteps.AcceptsIfOpen` | ssh/tunnel.go:100-107 | connections are accepted by waiting loops with open listeners only |
| `TunnelSteps.FailedLoopIsOver` | ssh/tunnel.go:102-107 | a loop whose accept failed never accepts again |
| `TunnelSteps.StartAndStop` | ssh/tunnel.go:76-92 | when the lock is free: channel set exactly while running, all listeners ever opened in the list, no channel closed twice |
| `TunnelSteps.RunningIsStable` | ssh/tunnel.go:79-81 | while running nothing but `Stop` changes listeners, channel or producer |
| `TunnelSteps.OpenListeners` | ssh/tunnel.go:83-89 | when the lock is free the open listeners are exactly the last ones opened, as many as the history of `Start` and `Stop` has left |
| `TunnelSteps.StopLeavesNoneOpenIff` | ssh/tunnel.go:170-181 | `Stop` returns with no listener open exactly if the tunnel was running or no `Start` since the last successful `Stop` had failed after opening one |
| `TunnelSteps.StartActsWhole` | ssh/tunnel.go:76-92 | whatever steps come between, a `Start` does what the sequential `SSHTunnel.Start` promises |
| `TunnelSteps.StopActsWhole` | ssh/tunnel.go:170-181 | and a `Stop` of a running tunnel what `SSHTunnel.Stop` promises |
| `TunnelSteps.PartialStartLeaks` | ssh/tunnel.go:83-89 | a run in which a failed `Start` and a `Stop` leave a listener open |
| `Fingerprint.Base64RoundTrip` | ssh/tunnel.go:213-220 | the unpadded base64 of a digest decodes to the digest |
| `Fingerprint.Base64Spelled` | ssh/tunnel.go:213-220 | each character is that of the alphabet A-Z, a-z, 0-9, + and / for the next 6 bits of the digest |
| `Fingerprint.HexSpelled` | ssh/tunnel.go:222-226 | two of the digits 0-9 and a-f for each byte, the high half first |
| `Fingerprint.LegacyMD5Spelled` | ssh/tunnel.go:222-226 | the same with a colon between one byte and the next |
| `Fingerprint.HexInjective` | ssh/tunnel.go:222-226 | different digests have different hexadecimal forms |
| `Fingerprint.ColonHexStrips` | ssh/tunnel.go:222-226 | hexadecimal with colons strips back to plain hexadecimal |
| `Fingerprint.AcceptsIff` | ssh/tunnel.go:208-241 | accepted exactly if, without colons, it is the base64 of one digest or the hexadecimal of the other |
| `Fingerprint.AcceptsSpelledIff` | ssh/tunnel.go:208-241 | accepted exactly if, without colons, it spells one of the digests digit by digit in these alphabets |
| `Fingerprint.PlusIsAccepted` | ssh/tunnel.go:213-233 | a digest whose base64 begins with a plus sign, and the announcement that is accepted for it |
| `Fingerprint.ColonsDoNotMatter` | ssh/tunnel.go:211 | a colon anywhere never changes the verdict |
| `Fingerprint.AcceptsItself` | ssh/tunnel.go:228-233 | both printed forms of a key's own digests are accepted |
| `Fingerprint.AcceptedDigestIsUnique` | ssh/tunnel.go:228-240 | two keys accepting the same text share the digest its length tells |

## Left out

- HTTP, OAuth, uploading, and running `cf` (client/client.go) are reduced to calls with any answer; the only facts kept are the guid "" of a failed `CreateApp` and the shape of the results.
- A server answer without `system_env_json` or with credentials that are null would fault in `initServiceBindings`; the model has only answers with a listing and with credential objects.
- JSON is not modelled: encoding the listing is a function given to `App` that cannot fail, and decoding is taken as having happened.
- Ports and counters are unbounded; no upper limit is checked by the code either. Where 64 bits matter (reading ports back, routing) the bound is a stated requirement.
- A port of 0 means no TLS tunnel, so routing requires a positive first port.
- Listening on `localhost` and connecting to `127.0.0.1` are taken for the same machine; routes are told apart by port.
- Case folding outside ASCII is limited to the two characters that fold to ASCII letters, and lower-casing to ASCII letters; nothing else can match the names looked for.
- Bind parameters are passed through by the code unread and do not appear in the model.
- `sort.Strings` is an insertion sort proved to give the sorted listing.
- The TLS accept loop and its error channel, `WaitChan`, keepalive, copying between connections, `PollForAppState` and `WaitForConnection` loops.
- Cipher suites, TLS versions, certificates, status display, logging, `PrintConnectionInfo`, flags other than those that protect the app, splitting the arguments at the dash, and the random app name. Everything that can fail before the application object exists is one condition of `RunE`.
- Interrupting signals, panics and exit codes other than success or failure of the program.
- Progress: the step system says what every run keeps, not that a connection is ever served.
- Tunnels.SSHTunnel.Start: one call taken as a whole; its interleaving with other goroutines is in `TunnelSteps`.
- Services.Provider.InitEnv: an error of the MySQL provider is returned and then dropped by the caller, as in conduit/app.go:362.
