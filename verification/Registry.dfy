/** The call registry: calls by Call-ID, and the RTP ports that lead to them. */
module Registry {
  import opened Text

  /** The three maps, for sessions of any type. */
  datatype Maps<S> = Maps(calls: map<string, S>, portMap: map<int, string>, callToPorts: map<string, seq<int>>)

  function PortsOf<S>(r: Maps<S>, id: string): seq<int> {
    if id in r.callToPorts then r.callToPorts[id] else []
  }

  function ToSet(ports: seq<int>): set<int> {
    set p | p in ports
  }

  function Added<S>(r: Maps<S>, id: string, session: S): Maps<S> {
    if id in r.calls then r else r.(calls := r.calls[id := session])
  }

  function Removed<S>(r: Maps<S>, id: string): Maps<S> {
    Maps(r.calls - {id}, r.portMap - ToSet(PortsOf(r, id)), r.callToPorts - {id})
  }

  function Registered<S>(r: Maps<S>, port: int, id: string): Maps<S> {
    r.(portMap := r.portMap[port := id], callToPorts := r.callToPorts[id := PortsOf(r, id) + [port]])
  }

  function ByPort<S>(r: Maps<S>, port: int): Option<S> {
    if port in r.portMap && r.portMap[port] in r.calls then Some(r.calls[r.portMap[port]]) else None
  }

  class CallRegistry<S> {
    var calls: map<string, S>
    var portMap: map<int, string>
    var callToPorts: map<string, seq<int>>

    function View(): Maps<S>
      reads this
    {
      Maps(calls, portMap, callToPorts)
    }

    constructor ()
      ensures View() == Maps(map[], map[], map[])
    {
      calls, portMap, callToPorts := map[], map[], map[];
    }

    /** `CallRegistry::addCall`. */
    method AddCall(id: string, session: S) returns (ok: bool)
      modifies this
      ensures ok <==> id !in old(calls)
      ensures calls == if ok then old(calls)[id := session] else old(calls)
      ensures View() == Added(old(View()), id, session)
    {
      if id in calls {
        return false;
      }
      calls := calls[id := session];
      return true;
    }

    /** `CallRegistry::removeCall`: the ports are unmapped one by one. */
    method RemoveCall(id: string)
      modifies this
      ensures View() == Removed(old(View()), id)
      ensures calls == old(calls) - {id} && callToPorts == old(callToPorts) - {id}
      ensures forall p :: p in portMap <==> p in old(portMap) && !(id in old(callToPorts) && p in old(callToPorts)[id])
      ensures forall p :: p in portMap ==> portMap[p] == old(portMap)[p]
    {
      if id in callToPorts {
        var ports := callToPorts[id];
        for i := 0 to |ports|
          invariant portMap == old(portMap) - ToSet(ports[..i])
          invariant calls == old(calls) && callToPorts == old(callToPorts)
        {
          assert ToSet(ports[..i + 1]) == ToSet(ports[..i]) + {ports[i]};
          portMap := portMap - {ports[i]};
        }
        assert ports[..|ports|] == ports;
        callToPorts := callToPorts - {id};
      }
      calls := calls - {id};
    }

    /** `CallRegistry::registerRtpPort`. */
    method RegisterRtpPort(port: int, id: string)
      modifies this
      ensures View() == Registered(old(View()), port, id)
      ensures calls == old(calls) && portMap == old(portMap)[port := id]
      ensures callToPorts
           == old(callToPorts)[id := (if id in old(callToPorts) then old(callToPorts)[id] else []) + [port]]
    {
      portMap := portMap[port := id];
      if id !in callToPorts {
        callToPorts := callToPorts[id := []];
      }
      callToPorts := callToPorts[id := callToPorts[id] + [port]];
    }

    /** `CallRegistry::getCallByPort`. */
    method GetCallByPort(port: int) returns (session: Option<S>)
      ensures session == ByPort(View(), port)
      ensures session == if port in portMap && portMap[port] in calls then Some(calls[portMap[port]]) else None
    {
      session := None;
      if port in portMap {
        var id := portMap[port];
        if id in calls {
          session := Some(calls[id]);
        }
      }
    }
  }

  // ---------------------------------------------------------------- agreement of the three maps

  /** A list of different ports, all mapped to one call. */
  ghost predicate Listed(ports: seq<int>, portMap: map<int, string>, id: string) {
    && (forall i :: 0 <= i < |ports| ==> ports[i] in portMap && portMap[ports[i]] == id)
    && (forall i, j :: 0 <= i < j < |ports| ==> ports[i] != ports[j])
  }

  /** The port lists and the port map say the same, list no port twice, and name only known calls. */
  ghost predicate Consistent<S>(r: Maps<S>) {
    && (forall p :: p in r.portMap ==> p in PortsOf(r, r.portMap[p]))
    && (forall id :: id in r.callToPorts ==> id in r.calls && Listed(r.callToPorts[id], r.portMap, id))
  }

  /** In agreement, the port map and the port lists are inverse to one another. */
  lemma MapsAreInverse<S>(r: Maps<S>, p: int, id: string)
    requires Consistent(r)
    ensures p in r.portMap && r.portMap[p] == id <==> p in PortsOf(r, id)
  {}

  /** So an RTP port leads to a session exactly when it is mapped, and then to its own call's. */
  lemma MappedPortsLead<S>(r: Maps<S>, p: int)
    requires Consistent(r)
    ensures ByPort(r, p).Some? <==> p in r.portMap
    ensures p in r.portMap ==>
      r.portMap[p] in r.calls && p in PortsOf(r, r.portMap[p]) && ByPort(r, p) == Some(r.calls[r.portMap[p]])
  {}

  lemma AddedIsConsistent<S>(r: Maps<S>, id: string, session: S)
    requires Consistent(r)
    ensures Consistent(Added(r, id, session))
  {}

  lemma RemovedIsConsistent<S>(r: Maps<S>, id: string)
    requires Consistent(r)
    ensures Consistent(Removed(r, id))
    ensures forall p :: p in Removed(r, id).portMap <==> p in r.portMap && r.portMap[p] != id
  {
    var t := Removed(r, id);
    forall p ensures p in t.portMap <==> p in r.portMap && r.portMap[p] != id {
      MapsAreInverse(r, p, id);
    }
    forall c | c in t.callToPorts ensures Listed(t.callToPorts[c], t.portMap, c) {
      assert Listed(r.callToPorts[c], r.portMap, c);
    }
  }

  /** Registering a port that is not mapped keeps the agreement. */
  lemma RegisteredIsConsistent<S>(r: Maps<S>, port: int, id: string)
    requires Consistent(r) && id in r.calls && port !in r.portMap
    ensures Consistent(Registered(r, port, id))
  {
    var t := Registered(r, port, id);
    var ports := PortsOf(r, id);
    assert Listed(ports, r.portMap, id);
    assert Listed(ports + [port], t.portMap, id);
    forall c | c in t.callToPorts && c != id ensures Listed(t.callToPorts[c], t.portMap, c) {
      assert Listed(r.callToPorts[c], r.portMap, c);
    }
    forall p | p in t.portMap ensures p in PortsOf(t, t.portMap[p]) {
      if p == port {
        assert (ports + [port])[|ports|] == port;
      } else {
        assert p in PortsOf(r, r.portMap[p]);
      }
    }
  }

  /** Registering a mapped port always breaks it: the port is then listed twice. */
  lemma RegisteredTwice<S>(r: Maps<S>, port: int, id: string)
    requires Consistent(r) && port in r.portMap
    ensures !Consistent(Registered(r, port, id))
  {
    var t := Registered(r, port, id);
    var c := r.portMap[port];
    var ports := PortsOf(r, c);
    var i :| 0 <= i < |ports| && ports[i] == port;
    assert t.callToPorts[c][i] == port;
    if c == id {
      assert t.callToPorts[c][|ports|] == port;
    }
    assert !Listed(t.callToPorts[c], t.portMap, c);
  }
}
