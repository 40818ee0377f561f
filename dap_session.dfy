/**
 * The adapter crate's debug session: one configuration, and by adapter
 * client id the clients and the capabilities they announced. Clients are
 * opaque handles; the merge of two capability records is a parameter.
 */
module AdapterSession {
  import opened Wrappers
  import opened DapTypes

  class DebugSession {
    const id: nat
    var configurationLabel: string
    var capabilities: map<nat, Capabilities>
    var clients: map<nat, nat>

    /** `new`: no clients and no capabilities yet. */
    constructor (id: nat, configurationLabel: string)
      ensures this.id == id && this.configurationLabel == configurationLabel
      ensures capabilities == map[] && clients == map[]
    {
      this.id := id;
      this.configurationLabel := configurationLabel;
      capabilities := map[];
      clients := map[];
    }

    /** `name`: the label of the session's configuration. */
    function Name(): (r: string)
      reads this
      ensures r == configurationLabel
    {
      configurationLabel
    }

    method UpdateConfiguration(f: string -> string)
      modifies this
      ensures configurationLabel == f(old(configurationLabel))
      ensures Name() == f(old(Name()))
      ensures capabilities == old(capabilities) && clients == old(clients)
    {
      configurationLabel := f(configurationLabel);
    }

    /** `capabilities`: what the client announced, or the defaults for an unknown client. */
    function CapabilitiesOf(clientId: nat): (r: Capabilities)
      reads this
      ensures clientId !in capabilities ==> r == DefaultCapabilities
      ensures clientId in capabilities ==> r == capabilities[clientId]
    {
      if clientId in capabilities then capabilities[clientId] else DefaultCapabilities
    }

    /**
     * `update_capabilities`: merged into what is known, or stored as they are
     * for a new id; the id is known afterwards and no other id changes.
     */
    method UpdateCapabilities(clientId: nat, newCapabilities: Capabilities, merge: (Capabilities, Capabilities) -> Capabilities)
      modifies this
      ensures clientId in capabilities
      ensures clientId in old(capabilities) ==>
        capabilities == old(capabilities)[clientId := merge(old(capabilities)[clientId], newCapabilities)]
      ensures clientId !in old(capabilities) ==> capabilities == old(capabilities)[clientId := newCapabilities]
      ensures forall other | other != clientId :: CapabilitiesOf(other) == old(CapabilitiesOf(other))
      ensures clients == old(clients) && configurationLabel == old(configurationLabel)
    {
      if clientId in capabilities {
        capabilities := capabilities[clientId := merge(capabilities[clientId], newCapabilities)];
      } else {
        capabilities := capabilities[clientId := newCapabilities];
      }
    }

    /** `add_client`: keyed by the client's own id. */
    method AddClient(clientId: nat, client: nat)
      modifies this
      ensures clients == old(clients)[clientId := client]
      ensures ClientById(clientId) == Some(client)
      ensures capabilities == old(capabilities) && configurationLabel == old(configurationLabel)
    {
      clients := clients[clientId := client];
    }

    /** `remove_client`: returns the client that was there; the id is gone afterwards. */
    method RemoveClient(clientId: nat) returns (r: Option<nat>)
      modifies this
      ensures clientId in old(clients) ==> r == Some(old(clients)[clientId])
      ensures clientId !in old(clients) ==> r == None
      ensures clients == old(clients) - {clientId} && ClientById(clientId) == None
      ensures capabilities == old(capabilities) && configurationLabel == old(configurationLabel)
    {
      r := if clientId in clients then Some(clients[clientId]) else None;
      clients := clients - {clientId};
    }

    function ClientById(clientId: nat): (r: Option<nat>)
      reads this
      ensures r.Some? <==> clientId in clients
      ensures r.Some? ==> r.value == clients[clientId]
    {
      if clientId in clients then Some(clients[clientId]) else None
    }

    /** `shutdown_clients` shuts down every client the session holds, each once. */
    function ClientsToShutDown(): (r: set<nat>)
      reads this
      ensures forall h :: h in r <==> exists id | id in clients :: clients[id] == h
    {
      clients.Values
    }
  }
}
