/**
 * The earlier form of the project's debug session: a session, local or
 * remote, holding per-adapter client states, where a local session also
 * keeps the adapter clients themselves by id.
 *
 * Module events follow the same rules as in the later client state, so
 * `DebuggerDapSession.ApplyModuleEvent` is their specification here too.
 * Adapter clients are opaque handles; the store the modules request goes
 * through is modelled only by whether it is still alive.
 */
module ProjectDapSession {
  import opened Wrappers
  import opened DapTypes
  import C = DapCommand
  import S = DebuggerDapSession

  class ClientState {
    const clientId: nat
    var modules: seq<Module>
    var requests: set<C.DapCommand>
    var issued: seq<C.DapCommand>

    constructor (clientId: nat)
      ensures this.clientId == clientId && modules == [] && requests == {} && issued == []
    {
      this.clientId := clientId;
      modules := [];
      requests := {};
      issued := [];
    }

    /**
     * `modules`: asks the store for the modules only when no Modules request
     * is cached and the store is still there; answers with what is known now.
     */
    method Modules(storeAlive: bool) returns (ms: seq<Module>)
      modifies this
      ensures ms == old(modules) && modules == old(modules)
      ensures C.ModulesCommand !in old(requests) && storeAlive ==>
        requests == old(requests) + {C.ModulesCommand} && issued == old(issued) + [C.ModulesCommand]
      ensures C.ModulesCommand in old(requests) || !storeAlive ==>
        requests == old(requests) && issued == old(issued)
    {
      if C.ModulesCommand !in requests && storeAlive {
        requests := requests + {C.ModulesCommand};
        issued := issued + [C.ModulesCommand];
      }
      ms := modules;
    }

    method HandleModuleEvent(e: S.ModuleEvent)
      modifies this
      ensures modules == S.ApplyModuleEvent(old(modules), e)
      ensures requests == old(requests) && issued == old(issued)
    {
      match e.reason
      case New => modules := modules + [e.moduleInfo];
      case Changed => modules := S.ReplaceFirst(modules, (m: Module) => m.id == e.moduleInfo.id, e.moduleInfo);
      case Removed => modules := S.Retain(modules, (m: Module) => m.id != e.moduleInfo.id);
    }
  }

  /** A local session: the label of its configuration and its adapter clients by id. */
  class LocalDebugSession {
    var configurationLabel: string
    var clients: map<nat, nat>

    constructor (configurationLabel: string)
      ensures this.configurationLabel == configurationLabel && clients == map[]
    {
      this.configurationLabel := configurationLabel;
      clients := map[];
    }

    /** `update_configuration`, applied to the label. */
    method UpdateConfiguration(f: string -> string)
      modifies this
      ensures configurationLabel == f(old(configurationLabel)) && clients == old(clients)
    {
      configurationLabel := f(configurationLabel);
    }

    /** `add_client`: keyed by the client's own id, replacing an earlier client of that id. */
    method AddClient(clientId: nat, client: nat)
      modifies this
      ensures clients == old(clients)[clientId := client]
      ensures ClientById(clientId) == Some(client)
      ensures ClientsLen() == |old(clients)| + (if clientId in old(clients) then 0 else 1)
      ensures configurationLabel == old(configurationLabel)
    {
      clients := clients[clientId := client];
    }

    /** `remove_client`: returns the client that was there; the id is gone afterwards. */
    method RemoveClient(clientId: nat) returns (r: Option<nat>)
      modifies this
      ensures clientId in old(clients) ==> r == Some(old(clients)[clientId])
      ensures clientId !in old(clients) ==> r == None
      ensures clients == old(clients) - {clientId} && ClientById(clientId) == None
      ensures configurationLabel == old(configurationLabel)
    {
      r := if clientId in clients then Some(clients[clientId]) else None;
      clients := clients - {clientId};
    }

    function ClientById(clientId: nat): (r: Option<nat>)
      reads this
      ensures r.Some? <==> clientId in clients
      ensures r.Some? ==> r.value == clients[clientId]
    {
      if clientId in clients then Some(clients[clientId]) else None
    }

    /** The number of distinct ids with a client. */
    function ClientsLen(): (n: nat)
      reads this
      ensures n == |clients.Keys|
      ensures clients == map[] <==> n == 0
    {
      |clients|
    }
  }

  datatype SessionMode = LocalMode(session: LocalDebugSession) | RemoteMode(remoteLabel: string)

  class DebugSession {
    const id: nat
    const mode: SessionMode
    var states: map<nat, ClientState>
    var ignoreBreakpoints: bool

    /** `new_local`: no client states, breakpoints honoured, and a local part with no clients. */
    constructor NewLocal(id: nat, configurationLabel: string)
      ensures this.id == id && mode.LocalMode? && fresh(mode.session)
      ensures mode.session.configurationLabel == configurationLabel && mode.session.clients == map[]
      ensures states == map[] && !ignoreBreakpoints
    {
      this.id := id;
      var local := new LocalDebugSession(configurationLabel);
      mode := LocalMode(local);
      states := map[];
      ignoreBreakpoints := false;
    }

    /** `new_remote`: no client states and the flag it is given. */
    constructor NewRemote(id: nat, labelText: string, ignoreBreakpoints: bool)
      ensures this.id == id && mode == RemoteMode(labelText)
      ensures states == map[] && this.ignoreBreakpoints == ignoreBreakpoints
    {
      this.id := id;
      mode := RemoteMode(labelText);
      states := map[];
      this.ignoreBreakpoints := ignoreBreakpoints;
    }

    function AsLocal(): (r: Option<LocalDebugSession>)
      ensures r.Some? <==> mode.LocalMode?
      ensures r.Some? ==> r.value == mode.session
    {
      if mode.LocalMode? then Some(mode.session) else None
    }

    /** The configuration's label for a local session, the stored label for a remote one. */
    function Name(): (r: string)
      reads if mode.LocalMode? then {mode.session} else {}
      ensures mode.LocalMode? ==> r == mode.session.configurationLabel
      ensures mode.RemoteMode? ==> r == mode.remoteLabel
    {
      match mode
      case LocalMode(local) => local.configurationLabel
      case RemoteMode(l) => l
    }

    method SetIgnoreBreakpoints(ignore: bool)
      modifies this
      ensures ignoreBreakpoints == ignore && states == old(states)
    {
      ignoreBreakpoints := ignore;
    }

    function ClientStateById(clientId: nat): (r: Option<ClientState>)
      reads this
      ensures r.Some? <==> clientId in states
      ensures r.Some? ==> r.value == states[clientId]
    {
      if clientId in states then Some(states[clientId]) else None
    }
  }
}
