/** Call sessions as objects, and the process-wide registry and port allocator they share. */
module Sessions {
  import opened Text
  import opened RtpPorts
  import opened Registry
  import opened Calls
  import Jitter
  import Sdp

  type Payload = seq<int>

  class CallSession {
    const callId: string
    var localRtpPort: int
    var payloadType: int
    const jitterBuffer: Jitter.JitterBuffer<Payload>

    function View(): Session
      reads this
    {
      Session(callId, localRtpPort, payloadType)
    }

    constructor (callId: string)
      ensures View() == Session(callId, 0, 0) && fresh(jitterBuffer) && jitterBuffer.buffer == []
    {
      this.callId, localRtpPort, payloadType := callId, 0, 0;
      jitterBuffer := new Jitter.JitterBuffer();
    }

    /** `CallSession::startPipeline`: a port the session had is overwritten, not released. */
    method StartPipeline(port: int, payloadType: int)
      modifies this
      ensures View() == old(View()).(localPort := port, payloadType := payloadType)
    {
      localRtpPort := port;
      this.payloadType := payloadType;
    }

    /** `CallSession::terminate`. */
    method Terminate(server: RtpServer)
      requires server.Valid()
      modifies this, server`view, server.workers
      ensures server.Valid() && server.workers == old(server.workers) && server.nextWorker == old(server.nextWorker)
      ensures View() == if old(localRtpPort) > 0 then old(View()).(localPort := 0) else old(View())
      ensures old(localRtpPort) > 0 ==> server.view == Release(old(server.view), old(localRtpPort))
      ensures old(localRtpPort) <= 0 ==> server.view == old(server.view)
    {
      if localRtpPort > 0 {
        server.ReleasePort(localRtpPort);
        localRtpPort := 0;
      }
    }

    /** `CallSession::onRtpPacket`: packets of another payload type are ignored; the rest go through the
        jitter buffer, one push and one pop each. The result is what the pipeline gets. */
    method OnRtpPacket(pkt: Jitter.Packet<Payload>, payloadType: int) returns (frame: Option<Jitter.Packet<Payload>>)
      modifies jitterBuffer
      ensures payloadType != this.payloadType ==> frame == None && jitterBuffer.buffer == old(jitterBuffer.buffer)
      ensures payloadType == this.payloadType ==>
        Jitter.Flow(if frame.Some? then [frame.value] else [], jitterBuffer.buffer)
          == Jitter.Arrive(Jitter.Flow([], old(jitterBuffer.buffer)), pkt)
    {
      if payloadType != this.payloadType {
        return None;
      }
      jitterBuffer.Push(pkt);
      ghost var pushed := jitterBuffer.buffer;
      frame := jitterBuffer.Pop();
      if frame.Some? {
        assert pushed == [frame.value] + jitterBuffer.buffer;
        assert [] + [pushed[0]] == [frame.value];
      }
    }
  }

  /** A reference to a session, as the source shares it; null when a lookup finds none. */
  type SessionRef = CallSession?

  /** The singletons, and every session that still has a reference. */
  class Instances {
    const registry: CallRegistry<SessionRef>
    const rtp: RtpServer
    ghost var live: set<CallSession>
    ghost var world: World<SessionRef>

    ghost function Repr(): set<object>
      reads this, rtp
    {
      {this, registry, rtp} + (set w | w in rtp.workers) + live
    }

    ghost predicate Valid()
      reads this, registry, rtp, rtp.workers, live
    {
      && registry.View() == world.reg
      && rtp.Valid() && rtp.view == world.server
      && (forall s :: s in world.sessions ==> s in live)
      && (forall s :: s in live ==> s in world.sessions && world.sessions[s] == s.View())
      && (forall id :: id in world.reg.calls ==> world.reg.calls[id] in world.sessions)
      && (forall s, t :: s in live && t in live && s != t ==> s.jitterBuffer != t.jitterBuffer)
    }

    constructor (startPort: int, endPort: int, threadCount: int, cores: nat)
      ensures Valid() && fresh(Repr()) && live == {}
      ensures world == World(Maps(map[], map[], map[]), map[],
        Fresh(startPort, endPort, if threadCount > 0 then threadCount else if cores > 0 then cores else 4))
    {
      registry := new CallRegistry();
      rtp := new RtpServer(startPort, endPort, threadCount, cores);
      live := {};
      new;
      world := World(registry.View(), map[], rtp.view);
    }

    /** A new session, registered under its Call-ID. */
    method NewCall(id: string) returns (s: CallSession)
      requires Valid() && id !in world.reg.calls
      modifies this, registry
      ensures Valid() && fresh(s) && live == old(live) + {s}
      ensures s !in old(world.sessions) && world == Open(old(world), id, s)
    {
      s := new CallSession(id);
      var added := registry.AddCall(id, s);
      live := live + {s};
      world := Open(world, id, s);
    }

    method RemoveCall(id: string)
      requires Valid()
      modifies this`world, registry
      ensures Valid() && live == old(live) && world == Drop(old(world), id)
    {
      registry.RemoveCall(id);
      world := Drop(world, id);
    }

    method EndSession(s: CallSession)
      requires Valid() && s in live
      modifies this`world, s, rtp`view, rtp.workers
      ensures Valid() && live == old(live) && rtp.workers == old(rtp.workers)
      ensures world == Terminate(old(world), s)
    {
      s.Terminate(rtp);
      world := Terminate(world, s);
    }

    /** The destructor, once the last reference is gone. */
    method Destroy(s: CallSession)
      requires Valid() && s in live && Unreferenced(world.reg, s)
      modifies this, s, rtp`view, rtp.workers
      ensures Valid() && live == old(live) - {s} && rtp.workers == old(rtp.workers)
      ensures world == Calls.Destroy(old(world), s)
    {
      EndSession(s);
      live := live - {s};
      world := world.(sessions := world.sessions - {s});
    }

    method Reserve(os: Sockets) returns (port: int)
      requires Valid()
      modifies this`world, rtp`nextWorker, rtp`view, rtp.workers
      ensures Valid() && live == old(live) && rtp.workers == old(rtp.workers)
      ensures var g := Allocate(old(world.server), os);
        port == g.port && world == old(world).(server := g.server)
    {
      port := rtp.AllocatePort(os);
      world := world.(server := rtp.view);
    }

    method Register(port: int, id: string)
      requires Valid()
      modifies this`world, registry
      ensures Valid() && live == old(live) && world == Enlist(old(world), port, id)
    {
      registry.RegisterRtpPort(port, id);
      world := Enlist(world, port, id);
    }

    method GiveBack(port: int)
      requires Valid()
      modifies this`world, rtp`view, rtp.workers
      ensures Valid() && live == old(live) && rtp.workers == old(rtp.workers)
      ensures world == Free(old(world), port)
    {
      rtp.ReleasePort(port);
      world := Free(world, port);
    }

    method Start(s: CallSession, port: int, payloadType: int)
      requires Valid() && s in live
      modifies this`world, s
      ensures Valid() && live == old(live) && world == Adopt(old(world), s, port, payloadType)
    {
      s.StartPipeline(port, payloadType);
      world := Adopt(world, s, port, payloadType);
    }

    /** The INVITE handling from the answer on. */
    method Conclude(s: CallSession, id: string, offer: Sdp.Session, cfg: Config, port: int)
      returns (code: int, answer: string)
      requires Valid() && s in live && id in world.reg.calls && world.reg.calls[id] == s
      modifies this`world, registry, rtp`view, rtp.workers, s
      ensures Valid() && live == old(live) && rtp.workers == old(rtp.workers)
      ensures SetUp(code, answer, world) == Settle(old(world), id, offer, cfg, port)
      ensures code == 200 ==> s.payloadType == Sdp.Negotiated(offer, cfg.codecPreference).payloadType
      ensures answer != "" <==> code == 200
    {
      var codec;
      answer, codec := Sdp.Generate(offer, cfg.bindIp, port, cfg.codecPreference);
      if answer == "" {
        GiveBack(port);
        RemoveCall(id);
        return 488, "";
      }
      Start(s, port, codec.payloadType);
      code := 200;
    }

    /** The INVITE handling from the port allocation on. */
    method SetUpCall(s: CallSession, id: string, offer: Sdp.Session, cfg: Config, os: Sockets)
      returns (code: int, answer: string)
      requires Valid() && s in live && id in world.reg.calls && world.reg.calls[id] == s
      modifies this`world, registry, rtp`nextWorker, rtp`view, rtp.workers, s
      ensures Valid() && live == old(live) && rtp.workers == old(rtp.workers)
      ensures SetUp(code, answer, world) == Establish(old(world), id, offer, cfg, os)
      ensures code == 200 ==> s.payloadType == Sdp.Negotiated(offer, cfg.codecPreference).payloadType
      ensures answer != "" <==> code == 200
    {
      var localRtpPort := Reserve(os);
      if localRtpPort < 0 {
        RemoveCall(id);
        return 500, "";
      }
      Register(localRtpPort, id);
      code, answer := Conclude(s, id, offer, cfg, localRtpPort);
    }
  }
}
