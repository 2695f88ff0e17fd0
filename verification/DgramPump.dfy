/**
 The datagram pump (crates/ax25-interpose/src/state.rs, `DgramPump`): datagrams
 wait in memory, and one byte in the socketpair tells select, poll and a blocked
 recvfrom that some do.
 */
module DgramPump {
  import opened Bytes

  const DGRAM_QUEUE_CAP := 4096

  datatype Datagram = Datagram(source: Option<string>, data: seq<byte>)

  datatype Entry = Entry(appFd: Fd, innerFd: Fd, queue: seq<Datagram>, signaled: bool, eof: bool)

  datatype Outcome = Got(dg: Datagram) | Empty | Eof | NoHandle

  function Raised(e: Entry): Entry {
    e.(signaled := true)
  }

  function PushedOn(e: Entry, dg: Datagram): Entry {
    if |e.queue| >= DGRAM_QUEUE_CAP then e else Raised(e.(queue := e.queue + [dg]))
  }

  function EofOn(e: Entry): Entry {
    Raised(e.(eof := true))
  }

  function OutcomeOn(e: Entry): Outcome {
    if e.queue != [] then Got(e.queue[0]) else if e.eof then Eof else Empty
  }

  function PoppedFrom(e: Entry): Entry {
    if e.queue == [] then e
    else e.(queue := e.queue[1..], signaled := e.signaled && |e.queue| > 1)
  }

  /** Readiness bytes in the socketpair while the entry is in this state. */
  function ByteCount(e: Entry): nat {
    if e.signaled then 1 else 0
  }

  /** A waiting datagram is signalled, and a signal means a datagram or the end. */
  predicate Signals(e: Entry) {
    && (e.queue != [] ==> e.signaled)
    && (e.signaled ==> e.queue != [] || e.eof)
    && |e.queue| <= DGRAM_QUEUE_CAP
  }

  // ---- The pump in place -----------------------------------------------

  /** The inner-to-app direction of the datagram socketpairs: unread bytes per app fd. */
  class ReadyPipes {
    var unread: map<Fd, nat>
    var peer: map<Fd, Fd>   // inner end to app end

    constructor ()
      ensures unread == map[] && peer == map[]
    {
      unread := map[];
      peer := map[];
    }

    function At(app: Fd): nat
      reads this
    {
      if app in unread then unread[app] else 0
    }

    /** A one-byte DONTWAIT send: it succeeds whenever nothing is waiting at the other end. */
    method Send(inner: Fd) returns (n: int)
      requires inner in peer
      modifies this`unread
      ensures old(At(peer[inner])) == 0 ==> n == 1
      ensures forall f :: At(f) == old(At(f)) + if f == peer[inner] && n == 1 then 1 else 0
    {
      var app := peer[inner];
      if At(app) > 0 {
        if * {
          return -1;
        }
      }
      unread := unread[app := At(app) + 1];
      n := 1;
    }

    /** A one-byte DONTWAIT recv. */
    method Recv(app: Fd) returns (n: int)
      modifies this`unread
      ensures n == 1 <==> old(At(app)) > 0
      ensures forall f :: At(f) == old(At(f)) - if f == app && n == 1 then 1 else 0
    {
      if At(app) == 0 {
        return -1;
      }
      unread := unread[app := At(app) - 1];
      n := 1;
    }
  }

  class DgramPump {
    var entries: map<Handle, Entry>

    constructor ()
      ensures entries == map[]
    {
      entries := map[];
    }

    /** The readiness mirror: for every handle, the pipe holds exactly the byte its entry says. */
    predicate Mirrors(k: ReadyPipes)
      reads this, k
    {
      && (forall h | h in entries ::
            && Signals(entries[h]) && k.At(entries[h].appFd) == ByteCount(entries[h])
            && entries[h].innerFd in k.peer && k.peer[entries[h].innerFd] == entries[h].appFd)
      && (forall g, h | g in entries && h in entries && g != h :: entries[g].appFd != entries[h].appFd)
    }

    /** Registers a new socketpair: its pipe is empty and no other handle has it. */
    method Register(k: ReadyPipes, h: Handle, appFd: Fd, innerFd: Fd)
      requires Mirrors(k) && innerFd in k.peer && k.peer[innerFd] == appFd && k.At(appFd) == 0
      requires forall g | g in entries && g != h :: entries[g].appFd != appFd
      modifies this
      ensures Mirrors(k) && entries == old(entries)[h := Entry(appFd, innerFd, [], false, false)]
    {
      entries := entries[h := Entry(appFd, innerFd, [], false, false)];
    }

    method Unregister(k: ReadyPipes, h: Handle)
      requires Mirrors(k)
      modifies this
      ensures Mirrors(k) && entries == old(entries) - {h}
    {
      entries := entries - {h};
    }

    static method Raise(k: ReadyPipes, e: Entry) returns (r: Entry)
      requires e.innerFd in k.peer && k.peer[e.innerFd] == e.appFd && k.At(e.appFd) == ByteCount(e)
      modifies k`unread
      ensures r == Raised(e)
      ensures forall f :: k.At(f) == if f == e.appFd then 1 else old(k.At(f))
    {
      r := e;
      if !r.signaled {
        var n := k.Send(r.innerFd);
        if n == 1 {
          r := r.(signaled := true);
        }
      }
    }

    method Push(k: ReadyPipes, h: Handle, dg: Datagram)
      requires Mirrors(k)
      modifies this, k`unread
      ensures Mirrors(k)
      ensures entries == if h in old(entries) then old(entries)[h := PushedOn(old(entries)[h], dg)] else old(entries)
      ensures h in entries ==>
                && entries[h].signaled && entries[h].eof == old(entries)[h].eof
                && entries[h].queue == old(entries)[h].queue + if |old(entries)[h].queue| < 4096 then [dg] else []
    {
      if h !in entries {
        return;
      }
      var e := entries[h];
      if |e.queue| >= DGRAM_QUEUE_CAP {
        assert entries == entries[h := e];
        return;
      }
      e := e.(queue := e.queue + [dg]);
      e := Raise(k, e);
      entries := entries[h := e];
    }

    method RecvOne(k: ReadyPipes, h: Handle) returns (o: Outcome)
      requires Mirrors(k)
      modifies this, k`unread
      ensures Mirrors(k)
      ensures o == if h in old(entries) then OutcomeOn(old(entries)[h]) else NoHandle
      ensures o == NoHandle <==> h !in old(entries)
      ensures o.Got? <==> h in old(entries) && old(entries)[h].queue != []
      ensures o.Got? ==> h in entries && [o.dg] + entries[h].queue == old(entries)[h].queue
      ensures o == Eof <==> h in old(entries) && old(entries)[h].queue == [] && old(entries)[h].eof
      ensures o == Empty <==> h in old(entries) && old(entries)[h].queue == [] && !old(entries)[h].eof
      ensures !o.Got? ==> entries == old(entries)
      ensures entries == if h in old(entries) then old(entries)[h := PoppedFrom(old(entries)[h])] else old(entries)
    {
      if h !in entries {
        return NoHandle;
      }
      var e := entries[h];
      if e.queue != [] {
        var dg := e.queue[0];
        e := e.(queue := e.queue[1..]);
        if e.queue == [] && e.signaled {
          var _ := k.Recv(e.appFd);
          e := e.(signaled := false);
        }
        entries := entries[h := e];
        return Got(dg);
      }
      assert entries == entries[h := e];
      if e.eof {
        return Eof;
      }
      return Empty;
    }

    method EndOne(k: ReadyPipes, h: Handle)
      requires Mirrors(k) && h in entries
      modifies this, k`unread
      ensures Mirrors(k) && entries == old(entries)[h := EofOn(old(entries)[h])]
    {
      var e := entries[h].(eof := true);
      e := Raise(k, e);
      entries := entries[h := e];
    }

    method ShutdownAll(k: ReadyPipes)
      requires Mirrors(k)
      modifies this, k`unread
      ensures Mirrors(k)
      ensures entries == map h | h in old(entries) :: EofOn(old(entries)[h])
      ensures forall h | h in entries ::
                entries[h].eof && entries[h].signaled && entries[h].queue == old(entries)[h].queue
    {
      var todo := entries.Keys;
      while todo != {}
        invariant todo <= entries.Keys == old(entries).Keys && Mirrors(k)
        invariant forall h | h in entries ::
            entries[h] == if h in todo then old(entries)[h] else EofOn(old(entries)[h])
      {
        hide Mirrors, EofOn;
        var h :| h in todo;
        EndOne(k, h);
        todo := todo - {h};
      }
    }
  }
}
