/**
 The connect gates and the outbound pump in place, each call run to its end
 (crates/ax25-interpose/src/state.rs). ConnectSession.dfy interleaves their steps.
 */
module Outbound {
  import opened Bytes
  import ConnectSession
  import RecvSpec
  import RecvPump
  import DgramPump

  type Cell = ConnectSession.Cell

  const STATUS_CONNECTED := 2

  function In(content: map<Fd, seq<Cell>>, fd: Fd): seq<Cell> {
    if fd in content then content[fd] else []
  }

  /** The app-to-inner direction of the socketpairs, by inner fd. */
  class Pipes {
    var content: map<Fd, seq<Cell>>
    const capacity: nat   // what a shrunken send buffer can hold

    constructor (capacity: nat)
      ensures content == map[] && this.capacity == capacity
    {
      content := map[];
      this.capacity := capacity;
    }

    /** A DONTWAIT recv of at most `max` bytes: it returns none only if there are none. */
    method Recv(inner: Fd, max: nat) returns (chunk: seq<Cell>)
      requires max > 0
      modifies this
      ensures |chunk| <= max
      ensures chunk == [] <==> old(In(content, inner)) == []
      ensures old(In(content, inner)) == chunk + In(content, inner)
      ensures forall f | f != inner :: In(content, f) == old(In(content, f))
    {
      var all := In(content, inner);
      if all == [] {
        return [];
      }
      var n :| 1 <= n <= |all| && n <= max;
      content := content[inner := all[n..]];
      chunk := all[..n];
    }

    /** A DONTWAIT send of up to `n` filler bytes; 0 stands for EAGAIN, and comes only from a full buffer. */
    method SendFiller(inner: Fd, n: nat) returns (sent: nat)
      requires n > 0
      modifies this
      ensures sent <= n && (sent > 0 ==> |In(content, inner)| <= capacity)
      ensures sent == 0 ==> |In(content, inner)| >= capacity
      ensures In(content, inner) == old(In(content, inner)) + ConnectSession.Fill(sent)
      ensures forall f | f != inner :: In(content, f) == old(In(content, f))
    {
      var all := In(content, inner);
      var room := if |all| < capacity then capacity - |all| else 0;
      sent :| 0 <= sent <= n && sent <= room && (sent == 0 ==> room == 0);
      content := content[inner := all + ConnectSession.Fill(sent)];
    }
  }

  /** What RHP send has been handed, per handle. A send can fail; the bytes were handed over all the same. */
  class Client {
    var handed: map<Handle, seq<Cell>>

    constructor ()
      ensures handed == map[]
    {
      handed := map[];
    }

    method Send(h: Handle, data: seq<Cell>) returns (ok: bool)
      modifies this
      ensures forall k :: Of(handed, k) == old(Of(handed, k)) + if k == h then data else []
    {
      handed := handed[h := Of(handed, h) + data];
      ok := *;
    }
  }

  function Of(handed: map<Handle, seq<Cell>>, h: Handle): seq<Cell> {
    if h in handed then handed[h] else []
  }

  class OutboundPump {
    var entries: map<Handle, Fd>

    constructor ()
      ensures entries == map[]
    {
      entries := map[];
    }

    /** Idempotent: an entry that is already there stays. */
    method Register(h: Handle, inner: Fd)
      modifies this
      ensures entries == if h in old(entries) then old(entries) else old(entries)[h := inner]
    {
      if h !in entries {
        entries := entries[h := inner];
      }
    }

    method Unregister(h: Handle)
      modifies this
      ensures entries == old(entries) - {h}
    {
      entries := entries - {h};
    }

    /** Reads the pipe until it is empty, handing each piece to RHP send in order. */
    static method DrainLocked(pipes: Pipes, client: Client, h: Handle, inner: Fd)
      modifies pipes, client
      ensures In(pipes.content, inner) == []
      ensures Of(client.handed, h) == old(Of(client.handed, h)) + old(In(pipes.content, inner))
      ensures forall f | f != inner :: In(pipes.content, f) == old(In(pipes.content, f))
      ensures forall k | k != h :: Of(client.handed, k) == old(Of(client.handed, k))
    {
      hide In, Of;
      ghost var was, before := In(pipes.content, inner), Of(client.handed, h);
      ghost var moved: seq<Cell> := [];
      var more := true;
      while more
        invariant was == moved + In(pipes.content, inner)
        invariant Of(client.handed, h) == before + moved
        invariant !more ==> In(pipes.content, inner) == []
        invariant forall f | f != inner :: In(pipes.content, f) == old(In(pipes.content, f))
        invariant forall k | k != h :: Of(client.handed, k) == old(Of(client.handed, k))
        decreases |In(pipes.content, inner)|, more
      {
        var chunk := pipes.Recv(inner, 4096);
        if chunk == [] {
          more := false;
        } else {
          var _ := client.Send(h, chunk);
          OnePieceOn(before, moved, chunk, In(pipes.content, inner));
          moved := moved + chunk;
        }
      }
      assert moved == was;
    }

    static lemma OnePieceOn(before: seq<Cell>, moved: seq<Cell>, chunk: seq<Cell>, rest: seq<Cell>)
      ensures before + moved + chunk == before + (moved + chunk)
      ensures moved + (chunk + rest) == moved + chunk + rest
    {
    }

    /** Background flush: nothing happens for a handle that has left the map. */
    method Flush(pipes: Pipes, client: Client, h: Handle)
      modifies pipes, client
      ensures forall k :: Of(client.handed, k) == old(Of(client.handed, k)) +
                if k == h && h in entries then old(In(pipes.content, entries[h])) else []
      ensures forall f :: In(pipes.content, f) ==
                if h in entries && f == entries[h] then [] else old(In(pipes.content, f))
    {
      if h in entries {
        DrainLocked(pipes, client, h, entries[h]);
      }
    }

    /** An interposed write: bypassed bytes first, then its own. */
    method SendOrdered(pipes: Pipes, client: Client, h: Handle, data: seq<Cell>) returns (ok: bool)
      modifies pipes, client
      ensures forall k | k != h :: Of(client.handed, k) == old(Of(client.handed, k))
      ensures Of(client.handed, h) == old(Of(client.handed, h)) +
                (if h in entries then old(In(pipes.content, entries[h])) else []) + data
      ensures forall f :: In(pipes.content, f) ==
                if h in entries && f == entries[h] then [] else old(In(pipes.content, f))
    {
      if h in entries {
        DrainLocked(pipes, client, h, entries[h]);
      }
      ok := client.Send(h, data);
    }
  }

  class ConnectGates {
    var gates: map<Handle, Fd>

    constructor ()
      ensures gates == map[]
    {
      gates := map[];
    }

    /** Fills the app end's send buffer, so that it is not writable, then arms the gate. */
    method Arm(pipes: Pipes, h: Handle, inner: Fd)
      modifies this, pipes
      ensures gates == old(gates)[h := inner]
      ensures |In(pipes.content, inner)| >= pipes.capacity
      ensures exists n: nat :: In(pipes.content, inner) == old(In(pipes.content, inner)) + ConnectSession.Fill(n)
      ensures forall f | f != inner :: In(pipes.content, f) == old(In(pipes.content, f))
    {
      ghost var was := In(pipes.content, inner);
      ghost var n: nat := 0;
      assert was + ConnectSession.Fill(0) == was;
      var more := true;
      while more
        modifies pipes
        invariant In(pipes.content, inner) == was + ConnectSession.Fill(n)
        invariant !more ==> |In(pipes.content, inner)| >= pipes.capacity
        invariant forall f | f != inner :: In(pipes.content, f) == old(In(pipes.content, f))
        decreases pipes.capacity - |In(pipes.content, inner)|, more
      {
        var sent := pipes.SendFiller(inner, 1024);
        assert ConnectSession.Fill(n) + ConnectSession.Fill(sent) == ConnectSession.Fill(n + sent);
        n := n + sent;
        more := sent > 0;
      }
      gates := gates[h := inner];
    }

    /** Releases `h`'s gate, if it has one: drains the pipe, then lets the outbound pump have it. */
    method Resolve(pipes: Pipes, pump: OutboundPump, h: Handle)
      modifies this, pipes, pump
      ensures gates == old(gates) - {h}
      ensures pump.entries == if h in old(gates) && h !in old(pump.entries)
                              then old(pump.entries)[h := old(gates)[h]] else old(pump.entries)
      ensures forall f :: In(pipes.content, f) ==
                if h in old(gates) && f == old(gates)[h] then [] else old(In(pipes.content, f))
    {
      if h !in gates {
        return;
      }
      var inner := gates[h];
      gates := gates - {h};
      var more := true;
      while more
        modifies pipes
        invariant !more ==> In(pipes.content, inner) == []
        invariant forall f | f != inner :: In(pipes.content, f) == old(In(pipes.content, f))
        decreases |In(pipes.content, inner)|, more
      {
        var chunk := pipes.Recv(inner, 1024);
        more := chunk != [];
      }
      pump.Register(h, inner);
    }
  }

  /** `f` is the pipe of a gate among `hs`. */
  predicate GateOf(gates: map<Handle, Fd>, hs: set<Handle>, f: Fd) {
    exists h | h in hs :: h in gates && gates[h] == f
  }

  /** The outbound entries once the gates of `hs` are released: those already there stay. */
  function WithReleased(entries: map<Handle, Fd>, gates: map<Handle, Fd>, hs: set<Handle>): map<Handle, Fd> {
    map h | h in entries.Keys + gates.Keys && (h in entries || h in hs) :: if h in entries then entries[h] else gates[h]
  }

  lemma NoneReleased(entries: map<Handle, Fd>, gates: map<Handle, Fd>)
    ensures WithReleased(entries, gates, {}) == entries && forall f :: !GateOf(gates, {}, f)
  {
  }

  lemma OneReleased(entries: map<Handle, Fd>, gates: map<Handle, Fd>, h: Handle)
    ensures WithReleased(entries, gates, {h}) ==
            if h in gates && h !in entries then entries[h := gates[h]] else entries
    ensures forall f :: GateOf(gates, {h}, f) <==> h in gates && f == gates[h]
  {
  }

  lemma OneMoreReleased(entries: map<Handle, Fd>, gates: map<Handle, Fd>, hs: set<Handle>, h: Handle)
    requires h in gates
    ensures WithReleased(entries, gates, hs + {h}) ==
            var was := WithReleased(entries, gates, hs); if h !in was then was[h := gates[h]] else was
    ensures forall f :: GateOf(gates, hs + {h}, f) <==> GateOf(gates, hs, f) || f == gates[h]
  {
    forall f ensures GateOf(gates, hs + {h}, f) <==> GateOf(gates, hs, f) || f == gates[h] {
      if GateOf(gates, hs, f) {
        var g :| g in hs && g in gates && gates[g] == f;
        assert g in hs + {h};
      }
      if f == gates[h] {
        assert h in hs + {h};
      }
    }
  }

  /** The event sink on the reader thread: what each push does to gates and pumps. */
  class InterposeSink {
    const gates: ConnectGates
    const outbound: OutboundPump
    const pipes: Pipes
    const receive: RecvPump.RecvPump
    const datagrams: DgramPump.DgramPump
    const ready: DgramPump.ReadyPipes

    constructor (gates: ConnectGates, outbound: OutboundPump, pipes: Pipes, receive: RecvPump.RecvPump,
                 datagrams: DgramPump.DgramPump, ready: DgramPump.ReadyPipes)
      ensures this.gates == gates && this.outbound == outbound && this.pipes == pipes
      ensures this.receive == receive && this.datagrams == datagrams && this.ready == ready
    {
      this.gates, this.outbound, this.pipes := gates, outbound, pipes;
      this.receive, this.datagrams, this.ready := receive, datagrams, ready;
    }

    /** Only a status with the Connected bit releases the gate. */
    method OnStatus(h: Handle, flags: int)
      modifies gates, outbound, pipes
      ensures flags / 2 % 2 == 1 ==> gates.gates == old(gates.gates) - {h}
      ensures flags / 2 % 2 == 1 ==>
                && outbound.entries == WithReleased(old(outbound.entries), old(gates.gates), {h})
                && forall f :: In(pipes.content, f) ==
                             if GateOf(old(gates.gates), {h}, f) then [] else old(In(pipes.content, f))
      ensures flags / 2 % 2 != 1 ==>
                gates.gates == old(gates.gates) && outbound.entries == old(outbound.entries)
                && pipes.content == old(pipes.content)
    {
      if flags / STATUS_CONNECTED % 2 == 1 {
        OneReleased(outbound.entries, gates.gates, h);
        gates.Resolve(pipes, outbound, h);
      }
    }

    method OnClose(h: Handle)
      modifies gates, outbound, pipes, receive
      ensures gates.gates == old(gates.gates) - {h}
      ensures outbound.entries == WithReleased(old(outbound.entries), old(gates.gates), {h})
      ensures forall f :: In(pipes.content, f) ==
                if GateOf(old(gates.gates), {h}, f) then [] else old(In(pipes.content, f))
      ensures receive.State() == RecvSpec.EofMarked(old(receive.State()), h)
    {
      OneReleased(outbound.entries, gates.gates, h);
      gates.Resolve(pipes, outbound, h);
      receive.MarkEof(h);
    }

    /** The transport is gone: every gate listed now is released and every handle gets its EOF. */
    method OnDisconnect()
      requires datagrams.Mirrors(ready)
      modifies gates, outbound, pipes, receive, datagrams, ready`unread
      ensures gates.gates == map[]
      ensures outbound.entries == WithReleased(old(outbound.entries), old(gates.gates), old(gates.gates).Keys)
      ensures forall f :: In(pipes.content, f) ==
                if GateOf(old(gates.gates), old(gates.gates).Keys, f) then [] else old(In(pipes.content, f))
      ensures receive.State() == RecvSpec.AllEof(old(receive.State()))
      ensures datagrams.Mirrors(ready)
      ensures datagrams.entries == map h | h in old(datagrams.entries) :: DgramPump.EofOn(old(datagrams.entries)[h])
    {
      var listed := gates.gates.Keys;
      ghost var g0, e0 := gates.gates, outbound.entries;
      NoneReleased(e0, g0);
      while listed != {}
        invariant gates.gates == g0 - (g0.Keys - listed) && listed <= g0.Keys
        invariant outbound.entries == WithReleased(e0, g0, g0.Keys - listed)
        invariant forall f :: In(pipes.content, f) ==
                    if GateOf(g0, g0.Keys - listed, f) then [] else old(In(pipes.content, f))
        invariant receive.State() == old(receive.State()) && datagrams.entries == old(datagrams.entries)
        invariant datagrams.Mirrors(ready)
      {
        var h :| h in listed;
        OneMoreReleased(e0, g0, g0.Keys - listed, h);
        gates.Resolve(pipes, outbound, h);
        assert g0.Keys - (listed - {h}) == (g0.Keys - listed) + {h};
        listed := listed - {h};
      }
      receive.ShutdownAll();
      datagrams.ShutdownAll(ready);
    }
  }
}
