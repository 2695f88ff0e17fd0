/** The receive pump in place, on the operations of RecvSpec.dfy. */
module RecvPump {
  import opened Bytes
  import opened RecvSpec

  /** The kernel's side of the inner fds: bytes accepted so far, and write ends shut down. */
  class Sockets {
    var wire: map<Fd, seq<byte>>
    var shut: map<Fd, nat>   // times shutdown(SHUT_WR) was called
    var answers: map<Fd, WriteOutcome>   // the kernel's last answer on each fd

    constructor ()
      ensures wire == map[] && shut == map[] && answers == map[]
    {
      wire := map[];
      shut := map[];
      answers := map[];
    }

    /** `nb_write`: how much the kernel takes is its own choice. */
    method NbWrite(fd: Fd, data: seq<byte>) returns (o: WriteOutcome)
      modifies this`wire, this`answers
      ensures Possible(o, data) && (data == [] ==> o == Wrote(0))
      ensures answers == if data == [] then old(answers) else old(answers)[fd := o]
      ensures OnWire(wire, fd) == old(OnWire(wire, fd)) + Taken(o, data)
      ensures forall f | f != fd :: OnWire(wire, f) == old(OnWire(wire, f))
    {
      if data == [] {
        return Wrote(0);
      }
      if * {
        var n :| 1 <= n <= |data|;
        wire := wire[fd := OnWire(wire, fd) + data[..n]];
        o := Wrote(n);
      } else if * {
        o := WouldBlock;
      } else {
        o := Fatal;
      }
      answers := answers[fd := o];
    }

    method Shutdown(fd: Fd)
      modifies this`shut
      ensures forall f :: ShutCount(shut, f) == old(ShutCount(shut, f)) + if f == fd then 1 else 0
    {
      shut := shut[fd := ShutCount(shut, fd) + 1];
    }
  }

  class RecvPump {
    var handles: map<Handle, Pending>
    var early: map<Handle, seq<byte>>
    var wakeups: nat   // calls of cv.notify_all

    constructor ()
      ensures State() == PumpState(map[], map[]) && wakeups == 0
    {
      handles := map[];
      early := map[];
      wakeups := 0;
    }

    function State(): PumpState
      reads this
    {
      PumpState(handles, early)
    }

    method Register(h: Handle, fd: Fd)
      modifies this
      ensures State() == Registered(old(State()), h, fd)
      ensures h in handles && handles[h] == Pending(fd, if h in old(early) then old(early)[h] else [], false, false)
      ensures h !in early && forall g | g != h :: EntryAt(handles, g) == old(EntryAt(handles, g))
      ensures wakeups == old(wakeups) + if Staged(old(State()), h) != [] then 1 else 0
    {
      var staged := if h in early then early[h] else [];
      early := early - {h};
      handles := handles[h := Pending(fd, staged, false, false)];
      if staged != [] {
        wakeups := wakeups + 1;
      }
    }

    method Unregister(h: Handle)
      modifies this
      ensures State() == Unregistered(old(State()), h) && wakeups == old(wakeups)
      ensures handles == old(handles) - {h} && early == old(early) - {h}
    {
      handles := handles - {h};
      early := early - {h};
    }

    /** Returns the kernel's answer; it is asked only if `PushWrites`. */
    method Push(k: Sockets, h: Handle, data: seq<byte>) returns (o: WriteOutcome)
      modifies this, k`wire, k`answers
      ensures Possible(o, data)
      ensures k.answers == if PushWrites(old(State()), h, data)
                           then old(k.answers)[old(handles)[h].innerFd := o] else old(k.answers)
      ensures State() == Pushed(old(State()), h, data, o)
      ensures wakeups == old(wakeups) + if PushNotifies(old(State()), h, data, o) then 1 else 0
      ensures forall f :: OnWire(k.wire, f) == old(OnWire(k.wire, f)) +
                (if PushWrites(old(State()), h, data) && f == old(handles)[h].innerFd then Taken(o, data) else [])
    {
      o := WouldBlock;
      if data == [] {
        return;
      }
      if h !in handles {
        var q := if h in early then early[h] else [];
        var room := if |q| <= EARLY_STAGE_CAP then EARLY_STAGE_CAP - |q| else 0;
        if room > 0 {
          q := q + if |data| <= room then data else data[..room];
        }
        early := early[h := q];
        assert room == 0 ==> q + Take(data, room) == q;
        return;
      }
      var e := handles[h];
      var dead := false;
      if e.buf == [] {
        o := k.NbWrite(e.innerFd, data);
        match o {
          case Wrote(n) =>
            e := e.(buf := data[n..]);
            if n < |data| {
              wakeups := wakeups + 1;
            }
          case WouldBlock =>
            e := e.(buf := data);
            wakeups := wakeups + 1;
          case Fatal =>
            dead := true;
        }
      } else {
        e := e.(buf := e.buf + data);
        wakeups := wakeups + 1;
      }
      handles := if dead then handles - {h} else handles[h := e];
    }

    method MarkEof(h: Handle)
      modifies this
      ensures State() == EofMarked(old(State()), h)
      ensures h in handles ==> handles[h] == old(handles)[h].(eof := true)
      ensures wakeups == old(wakeups) + if h in old(handles) then 1 else 0
    {
      if h in handles {
        handles := handles[h := handles[h].(eof := true)];
        wakeups := wakeups + 1;
      }
    }

    method ShutdownAll()
      modifies this
      ensures State() == AllEof(old(State())) && wakeups == old(wakeups) + 1
      ensures forall h | h in old(handles) :: h in handles && handles[h] == old(handles)[h].(eof := true)
    {
      var todo := handles.Keys;
      while todo != {}
        invariant todo <= handles.Keys == old(handles).Keys && early == old(early) && wakeups == old(wakeups)
        invariant forall h | h in handles ::
            handles[h] == if h in todo then old(handles)[h] else old(handles)[h].(eof := true)
      {
        var h :| h in todo;
        handles := handles[h := handles[h].(eof := true)];
        todo := todo - {h};
      }
      wakeups := wakeups + 1;
    }

    /**
     The inner loop of `drain_pass` for one entry. Which non-empty front of the
     backlog the ring hands out first is left open here; ByteDeque.dfy does it on
     the ring itself.
     */
    method DrainEntry(k: Sockets, e: Pending) returns (rest: Pending, fatal: bool)
      modifies k`wire, k`answers
      ensures Excused(if fatal then None else Some(rest), AnswerOn(k.answers, e.innerFd)) && (fatal ==> rest.buf != [])
      ensures forall f | f != e.innerFd :: AnswerOn(k.answers, f) == old(AnswerOn(k.answers, f))
      ensures rest == e.(buf := rest.buf)
      ensures WentOut(e.buf, rest.buf, old(OnWire(k.wire, e.innerFd)), OnWire(k.wire, e.innerFd))
      ensures forall f | f != e.innerFd :: OnWire(k.wire, f) == old(OnWire(k.wire, f))
    {
      rest := e;
      fatal := false;
      ghost var w0 := OnWire(k.wire, e.innerFd);
      while rest.buf != []
        invariant rest == e.(buf := rest.buf) && WentOut(e.buf, rest.buf, w0, OnWire(k.wire, e.innerFd))
        invariant forall f | f != e.innerFd :: OnWire(k.wire, f) == old(OnWire(k.wire, f))
        invariant forall f | f != e.innerFd :: AnswerOn(k.answers, f) == old(AnswerOn(k.answers, f))
        decreases |rest.buf|
      {
        hide WentOut;
        var front :| 1 <= front <= |rest.buf|;
        ghost var w1 := OnWire(k.wire, e.innerFd);
        var o := k.NbWrite(rest.innerFd, rest.buf[..front]);
        match o {
          case Wrote(n) =>
            assert Taken(o, rest.buf[..front]) == rest.buf[..n];
            WentOutTwice(e.buf, rest.buf, rest.buf[n..], rest.buf[..n], w0, w1);
            rest := rest.(buf := rest.buf[n..]);
          case WouldBlock =>
            assert OnWire(k.wire, e.innerFd) == w1;
            break;
          case Fatal =>
            assert OnWire(k.wire, e.innerFd) == w1;
            fatal := true;
            break;
        }
      }
    }

    /** One entry of a pass: drain it, then send its EOF if it is due. */
    method PassEntry(k: Sockets, e: Pending) returns (now: Option<Pending>)
      modifies k
      ensures Passed(e, now, old(OnWire(k.wire, e.innerFd)), OnWire(k.wire, e.innerFd),
                     old(ShutCount(k.shut, e.innerFd)), ShutCount(k.shut, e.innerFd))
      ensures forall f | f != e.innerFd :: OnWire(k.wire, f) == old(OnWire(k.wire, f))
      ensures forall f | f != e.innerFd :: ShutCount(k.shut, f) == old(ShutCount(k.shut, f))
      ensures Excused(now, AnswerOn(k.answers, e.innerFd)) && (now.None? ==> e.buf != [])
      ensures now.Some? ==>
                && (now.value.eofDone <==> e.eofDone || (now.value.buf == [] && e.eof))
                && ShutCount(k.shut, e.innerFd) ==
                   old(ShutCount(k.shut, e.innerFd)) + if now.value.eofDone && !e.eofDone then 1 else 0
      ensures forall f | f != e.innerFd :: AnswerOn(k.answers, f) == old(AnswerOn(k.answers, f))
    {
      var rest, fatal := DrainEntry(k, e);
      if fatal {
        return None;
      }
      if rest.buf == [] && rest.eof && !rest.eofDone {
        k.Shutdown(rest.innerFd);
        rest := rest.(eofDone := true);
      }
      now := Some(rest);
    }

    /**
     Drains every entry as far as the sockets allow; returns the inner fds whose
     backlog is not empty. An entry loses only bytes that reached its own socket,
     in order; its EOF goes out once, and only behind its last byte. It leaves the
     pump only on a fatal write and keeps a backlog only when told to wait. What work is
     left afterwards is a backlog, and if no fd is blocked there is none.
     */
    method DrainPass(k: Sockets) returns (blocked: set<Fd>)
      requires Distinct(handles)
      modifies this`handles, k
      ensures HalfPassed({}, old(handles), handles, old(k.wire), k.wire, old(k.shut), k.shut)
      ensures AllExcused({}, old(handles), handles, k.answers)
      ensures forall h | h in handles && handles[h].buf == [] && handles[h].eof :: handles[h].eofDone
      ensures forall h | h in handles && (handles[h].buf != [] || (handles[h].eof && !handles[h].eofDone)) ::
                handles[h].buf != [] && AnswerOn(k.answers, handles[h].innerFd) == Some(WouldBlock)
      ensures blocked == {} ==>
                forall h | h in handles :: handles[h].buf == [] && (handles[h].eof ==> handles[h].eofDone)
      ensures blocked == set h | h in handles && handles[h].buf != [] :: handles[h].innerFd
    {
      hide HalfPassed, AllExcused, Passed, Excused, Distinct, OnWire, ShutCount, AnswerOn;
      ghost var was, w0, s0 := handles, k.wire, k.shut;
      PassBegins(was, w0, s0, k.answers);
      var todo := handles.Keys;
      while todo != {}
        invariant HalfPassed(todo, was, handles, w0, k.wire, s0, k.shut)
        invariant AllExcused(todo, was, handles, k.answers)
        invariant handles.Keys <= was.Keys && forall h | h in handles && h !in todo :: EofDone(handles[h])
        invariant forall h | h in handles :: handles[h].innerFd == was[h].innerFd
      {
        var h :| h in todo;
        ghost var mid, w1, s1, a1 := handles, k.wire, k.shut, k.answers;
        StillUntouched(h, todo, was, mid, w0, w1, s0, s1);
        var now := PassEntry(k, handles[h]);
        handles := if now.Some? then handles[h := now.value] else handles - {h};
        PassOneMore(h, todo, was, mid, handles, w0, w1, k.wire, s0, s1, k.shut);
        ExcuseOneMore(h, todo, was, mid, handles, a1, k.answers);
        todo := todo - {h};
      }
      NobodyIsOwed(was, handles, k.answers);
      blocked := set h | h in handles && handles[h].buf != [] :: handles[h].innerFd;
      assert forall h | h in handles && handles[h].buf != [] :: handles[h].innerFd in blocked;
    }

    method HasWork() returns (b: bool)
      ensures b <==> RecvSpec.HasWork(State())
      ensures b <==> exists h :: h in handles && (handles[h].buf != [] || (handles[h].eof && !handles[h].eofDone))
    {
      b := exists h | h in handles :: EntryHasWork(handles[h]);
    }
  }
}
