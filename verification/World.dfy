/** Everything outside the program: the Cloud Foundry client, the network and
    the file system. Each call may answer anything its contract allows, and is
    recorded, with its answer, in `trace`. */
module Outside {
  import opened ServiceCredentials

  datatype Call =
    | GetOrg
    | GetSpace
    | CreateApp(guid: string)
    | UploadBits(guid: string)
    | StartApp(guid: string)
    | PollStarted(guid: string)
    | GetApp(guid: string)
    | GetServiceInstances(instances: map<string, string>)
    | GetServiceBindings(guid: string, bound: set<string>)
    | BindService(guid: string, instance: string, creds: Bindings)
    | GetAppEnv(guid: string, fetched: Environment)
    | DestroyApp(guid: string)
    | RefreshToken
    | Listen(addr: string)
    | WaitFor(addr: string)
    | CloseTLS(addr: string)
    | StopSSH
    | MakeDir(dir: string)
    | WriteFile(dir: string, name: string, text: string)
    | RemoveAll(dir: string)
    | RunProgram(program: string, args: seq<string>, env: map<string, string>)

  /** One external call and whether it succeeded. */
  datatype Event = Did(call: Call, ok: bool)

  /** One binding as the server describes it. */
  datatype Entry = Entry(name: string, instanceName: string, creds: Bindings)

  /** The VCAP_SERVICES of an app: service type to bindings. */
  type Environment = map<string, seq<Entry>>

  class World {
    ghost var trace: seq<Event>

    method GetOrgByName() returns (ok: bool)
      modifies this
      ensures trace == old(trace) + [Did(Call.GetOrg, ok)]
    {
      ok := *;
      trace := trace + [Did(Call.GetOrg, ok)];
    }

    method GetSpaceByName() returns (ok: bool)
      modifies this
      ensures trace == old(trace) + [Did(Call.GetSpace, ok)]
    {
      ok := *;
      trace := trace + [Did(Call.GetSpace, ok)];
    }

    /** A failure comes with the guid "" (client/client.go:261-263). */
    method CreateApp() returns (guid: string, ok: bool)
      modifies this
      ensures trace == old(trace) + [Did(Call.CreateApp(guid), ok)]
      ensures !ok ==> guid == ""
    {
      ok := *;
      if ok { guid := *; } else { guid := ""; }
      trace := trace + [Did(Call.CreateApp(guid), ok)];
    }

    method UploadStaticAppBits(guid: string) returns (ok: bool)
      modifies this
      ensures trace == old(trace) + [Did(Call.UploadBits(guid), ok)]
    {
      ok := *;
      trace := trace + [Did(Call.UploadBits(guid), ok)];
    }

    method StartApp(guid: string) returns (ok: bool)
      modifies this
      ensures trace == old(trace) + [Did(Call.StartApp(guid), ok)]
    {
      ok := *;
      trace := trace + [Did(Call.StartApp(guid), ok)];
    }

    method PollForAppState(guid: string) returns (ok: bool)
      modifies this
      ensures trace == old(trace) + [Did(Call.PollStarted(guid), ok)]
    {
      ok := *;
      trace := trace + [Did(Call.PollStarted(guid), ok)];
    }

    method GetAppByName() returns (guid: string, ok: bool)
      modifies this
      ensures trace == old(trace) + [Did(Call.GetApp(guid), ok)]
    {
      ok := *;
      guid := *;
      trace := trace + [Did(Call.GetApp(guid), ok)];
    }

    /** The service instances of the space, from guid to name. */
    method GetServiceInstances() returns (instances: map<string, string>, ok: bool)
      modifies this
      ensures trace == old(trace) + [Did(Call.GetServiceInstances(instances), ok)]
    {
      ok := *;
      instances := *;
      trace := trace + [Did(Call.GetServiceInstances(instances), ok)];
    }

    /** The guids of the service instances the app is bound to. */
    method GetServiceBindings(guid: string) returns (bound: set<string>, ok: bool)
      modifies this
      ensures trace == old(trace) + [Did(Call.GetServiceBindings(guid, bound), ok)]
    {
      ok := *;
      bound := *;
      trace := trace + [Did(Call.GetServiceBindings(guid, bound), ok)];
    }

    method BindService(guid: string, instance: string) returns (creds: Bindings, ok: bool)
      modifies this
      ensures trace == old(trace) + [Did(Call.BindService(guid, instance, creds), ok)]
    {
      ok := *;
      creds := *;
      trace := trace + [Did(Call.BindService(guid, instance, creds), ok)];
    }

    method GetAppEnv(guid: string) returns (env: Environment, ok: bool)
      modifies this
      ensures trace == old(trace) + [Did(Call.GetAppEnv(guid, env), ok)]
    {
      ok := *;
      env := *;
      trace := trace + [Did(Call.GetAppEnv(guid, env), ok)];
    }

    method DestroyApp(guid: string) returns (ok: bool)
      modifies this
      ensures trace == old(trace) + [Did(Call.DestroyApp(guid), ok)]
    {
      ok := *;
      trace := trace + [Did(Call.DestroyApp(guid), ok)];
    }

    method RefreshAccessToken() returns (ok: bool)
      modifies this
      ensures trace == old(trace) + [Did(Call.RefreshToken, ok)]
    {
      ok := *;
      trace := trace + [Did(Call.RefreshToken, ok)];
    }

    /** `net.Listen`. */
    method Listen(addr: string) returns (ok: bool)
      modifies this
      ensures trace == old(trace) + [Did(Call.Listen(addr), ok)]
    {
      ok := *;
      trace := trace + [Did(Call.Listen(addr), ok)];
    }

    /** Waiting for a listening port to answer; any failure of the tunnel also ends the wait. */
    method WaitForConnection(addr: string) returns (ok: bool)
      modifies this
      ensures trace == old(trace) + [Did(Call.WaitFor(addr), ok)]
    {
      ok := *;
      trace := trace + [Did(Call.WaitFor(addr), ok)];
    }

    method CloseListener(addr: string) returns (ok: bool)
      modifies this
      ensures trace == old(trace) + [Did(Call.CloseTLS(addr), ok)]
    {
      ok := *;
      trace := trace + [Did(Call.CloseTLS(addr), ok)];
    }

    /** `os.RemoveAll`. */
    method RemoveAll(dir: string) returns (ok: bool)
      modifies this
      ensures trace == old(trace) + [Did(Call.RemoveAll(dir), ok)]
    {
      ok := *;
      trace := trace + [Did(Call.RemoveAll(dir), ok)];
    }

    /** `ioutil.TempDir`: the name is "" exactly if it failed. */
    method TempDir() returns (dir: string, ok: bool)
      modifies this
      ensures trace == old(trace) + [Did(Call.MakeDir(dir), ok)]
      ensures ok <==> dir != ""
    {
      dir := *;
      ok := dir != "";
      trace := trace + [Did(Call.MakeDir(dir), ok)];
    }

    /** `ioutil.WriteFile`, of a file in that directory. */
    method WriteFile(dir: string, name: string, text: string) returns (ok: bool)
      modifies this
      ensures trace == old(trace) + [Did(Call.WriteFile(dir, name, text), ok)]
    {
      ok := *;
      trace := trace + [Did(Call.WriteFile(dir, name, text), ok)];
    }

    /** `exec.LookPath`, start and wait. */
    method Exec(program: string, args: seq<string>, env: map<string, string>) returns (ok: bool)
      modifies this
      ensures trace == old(trace) + [Did(Call.RunProgram(program, args, env), ok)]
    {
      ok := *;
      trace := trace + [Did(Call.RunProgram(program, args, env), ok)];
    }

    /** Records the end of a step that is not one external call. */
    ghost method Note(e: Event)
      modifies this
      ensures trace == old(trace) + [e]
    {
      trace := trace + [e];
    }
  }
}
