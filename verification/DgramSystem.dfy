/**
 One datagram handle against every interleaving: the reader thread pushing
 datagrams and the end of the transport, and the application's one reader in
 recvfrom's retry loop (crates/ax25-interpose/src/state.rs, lib.rs).
 */
module DgramSystem {
  import opened Bytes
  import opened DgramPump

  /** Where the application's reader stands in recvfrom. */
  datatype ReaderAt =
    | Away
    | Trying     // about to call recv_one
    | SawEmpty   // recv_one said Empty; about to poll
    | Polling    // asleep in poll(POLLIN, -1)

  datatype State = State(
    entry: Entry,
    unread: nat,                 // readiness bytes in the pipe
    reader: ReaderAt,
    // history
    kept: seq<Datagram>,         // pushes that found room
    returned: seq<Datagram>,     // datagrams handed to the application
    ended: bool,                 // a recvfrom has reported the end
    gotSinceEof: bool            // a datagram was returned after the end was noted
  )

  datatype Event =
    | Push(dg: Datagram) | TransportEnds
    | CallRecv | TryOne | GiveUp | Poll | PollReturns

  predicate Enabled(s: State, e: Event) {
    match e
    case Push(dg) => true
    case TransportEnds => !s.entry.eof   // on_disconnect is the reader thread's last act
    case CallRecv => s.reader.Away?
    case TryOne => s.reader.Trying?
    case GiveUp => s.reader.SawEmpty?    // O_NONBLOCK or MSG_DONTWAIT
    case Poll => s.reader.SawEmpty?
    case PollReturns => s.reader.Polling? && s.unread > 0
  }

  function Raise(s: State, e: Entry): State {
    s.(entry := Raised(e), unread := if e.signaled then s.unread else s.unread + 1)
  }

  /** One recv_one by the reader: a datagram, the end, or neither. */
  function Tried(s: State): State {
    match OutcomeOn(s.entry)
    case Got(dg) =>
      s.(entry := PoppedFrom(s.entry),
         unread := if |s.entry.queue| == 1 && s.entry.signaled && s.unread > 0 then s.unread - 1 else s.unread,
         reader := Away, returned := s.returned + [dg], gotSinceEof := s.entry.eof)
    case Eof => s.(reader := Away, ended := true)
    case _ => s.(reader := SawEmpty)
  }

  function Apply(s: State, e: Event): State
    requires Enabled(s, e)
  {
    match e
    case Push(dg) =>
      if |s.entry.queue| >= DGRAM_QUEUE_CAP then s
      else Raise(s.(kept := s.kept + [dg]), s.entry.(queue := s.entry.queue + [dg]))
    case TransportEnds => Raise(s, s.entry.(eof := true))
    case CallRecv => s.(reader := Trying)
    case TryOne => Tried(s)
    case GiveUp => s.(reader := Away)
    case Poll => s.(reader := Polling)
    case PollReturns => s.(reader := Trying)
  }

  predicate Inv(s: State) {
    && Signals(s.entry)
    && s.unread == ByteCount(s.entry)
    && s.kept == s.returned + s.entry.queue
    && (s.reader.SawEmpty? || s.reader.Polling? ==> (s.entry.queue != [] || s.entry.eof ==> s.unread == 1))
    && (s.ended ==> s.entry.eof)
    && (s.gotSinceEof ==> s.entry.eof)
    && (s.entry.eof && s.entry.queue == [] ==> (s.entry.signaled <==> !s.gotSinceEof))
  }

  lemma StepKeepsInv(s: State, e: Event)
    requires Inv(s) && Enabled(s, e)
    ensures Inv(Apply(s, e))
  {
    if e == TryOne && s.entry.queue != [] {
      var q := s.entry.queue;
      assert q == [q[0]] + q[1..];
      assert s.returned + q == (s.returned + [q[0]]) + q[1..];
    }
  }

  function Start(app: Fd, inner: Fd): State {
    State(Entry(app, inner, [], false, false), 0, Away, [], [], false, false)
  }

  /** The state after `events`, or `None` if one of them could not happen. */
  function Run(app: Fd, inner: Fd, events: seq<Event>): Option<State>
    decreases |events|
  {
    if events == [] then Some(Start(app, inner))
    else
      var n := |events| - 1;
      var before := Run(app, inner, events[..n]);
      if before.Some? && Enabled(before.value, events[n]) then Some(Apply(before.value, events[n])) else None
  }

  lemma {:induction false} RunKeepsInv(app: Fd, inner: Fd, events: seq<Event>)
    requires Run(app, inner, events).Some?
    ensures Inv(Run(app, inner, events).value)
    decreases |events|
  {
    if events != [] {
      var n := |events| - 1;
      RunKeepsInv(app, inner, events[..n]);
      StepKeepsInv(Run(app, inner, events[..n]).value, events[n]);
    }
  }

  // ---- What every run guarantees, and what it does not -----------------

  /** The readiness mirror holds at every moment. */
  lemma PipeMirrorsQueue(app: Fd, inner: Fd, events: seq<Event>)
    requires Run(app, inner, events).Some?
    ensures var s := Run(app, inner, events).value;
            && s.unread == ByteCount(s.entry)
            && (s.entry.queue != [] ==> s.entry.signaled)
            && (s.entry.signaled ==> s.entry.queue != [] || s.entry.eof)
  {
    RunKeepsInv(app, inner, events);
  }

  /**
   No lost wakeup: a reader that saw an empty queue, about to poll or already
   asleep, finds the pipe readable once a datagram or the end exists.
   */
  lemma ReaderIsNeverStranded(app: Fd, inner: Fd, events: seq<Event>)
    requires Run(app, inner, events).Some?
    requires var s := Run(app, inner, events).value;
             (s.reader.SawEmpty? || s.reader.Polling?) && (s.entry.queue != [] || s.entry.eof)
    ensures var s := Run(app, inner, events).value;
            var asleep := if s.reader.SawEmpty? then Apply(s, Poll) else s;
            Enabled(asleep, PollReturns) && Enabled(Apply(asleep, PollReturns), TryOne)
  {
    RunKeepsInv(app, inner, events);
  }

  /** Datagrams come out first in, first out: exactly the pushes that found room. */
  lemma DatagramsKeepOrder(app: Fd, inner: Fd, events: seq<Event>)
    requires Run(app, inner, events).Some?
    ensures var s := Run(app, inner, events).value; s.kept == s.returned + s.entry.queue
  {
    RunKeepsInv(app, inner, events);
  }

  /** A push is dropped exactly when 4096 datagrams wait unread. */
  lemma TailDropIff(app: Fd, inner: Fd, events: seq<Event>, dg: Datagram)
    requires Run(app, inner, events).Some?
    ensures var s := Run(app, inner, events).value;
            Apply(s, Push(dg)).kept == (if |s.kept| - |s.returned| == DGRAM_QUEUE_CAP then s.kept else s.kept + [dg])
  {
    RunKeepsInv(app, inner, events);
  }

  /** The end is reported only after every datagram has been returned. */
  lemma EndComesLast(app: Fd, inner: Fd, events: seq<Event>)
    requires Run(app, inner, events).Some? && Enabled(Run(app, inner, events).value, TryOne)
    requires var s := Run(app, inner, events).value; Apply(s, TryOne).ended && !s.ended
    ensures var s := Run(app, inner, events).value; s.returned == s.kept
  {
    RunKeepsInv(app, inner, events);
    var s := Run(app, inner, events).value;
    assert s.entry.queue == [];
  }

  /**
   What an attempt to receive leads to, in every run: the oldest datagram if there is
   one; the end, reported, if there is none and the transport has ended; Empty only if
   neither is there.
   */
  lemma TryingTells(app: Fd, inner: Fd, events: seq<Event>)
    requires Run(app, inner, events).Some? && Enabled(Run(app, inner, events).value, TryOne)
    ensures var s := Run(app, inner, events).value;
            var t := Apply(s, TryOne);
            && (s.entry.queue != [] ==>
                  && t.returned == s.returned + [s.entry.queue[0]] && t.reader.Away?
                  && [s.entry.queue[0]] + t.entry.queue == s.entry.queue)
            && (s.entry.queue == [] ==> t.entry == s.entry && t.returned == s.returned)
            && (s.entry.queue == [] && s.entry.eof ==> t.ended && t.reader.Away?)
            && (s.entry.queue == [] && !s.entry.eof ==> t.ended == s.ended && t.reader.SawEmpty?)
  {
    hide Run;
  }

  /** The transport's end is noted for good, and any number of events later is still there to report. */
  lemma {:induction false} TransportEndIsKept(app: Fd, inner: Fd, events: seq<Event>)
    requires Run(app, inner, events).Some?
    ensures Run(app, inner, events).value.entry.eof <==> TransportEnds in events
    decreases |events|
  {
    if events != [] {
      var n := |events| - 1;
      TransportEndIsKept(app, inner, events[..n]);
      EofStep(Run(app, inner, events[..n]).value, events[n]);
      assert events == events[..n] + [events[n]];
      hide Apply, Enabled;
    }
  }

  lemma EofStep(s: State, e: Event)
    requires Enabled(s, e)
    ensures Apply(s, e).entry.eof <==> s.entry.eof || e == TransportEnds
  {
  }

  /**
   A select-driven reader waits for readability first. With nothing left but the
   end, its fd is readable exactly when no datagram was read since the end was
   noted: the last datagram takes the readiness byte with it.
   */
  lemma EndIsVisibleIff(app: Fd, inner: Fd, events: seq<Event>)
    requires Run(app, inner, events).Some?
    requires var s := Run(app, inner, events).value; s.entry.eof && s.entry.queue == []
    ensures var s := Run(app, inner, events).value; s.unread > 0 <==> !s.gotSinceEof
  {
    RunKeepsInv(app, inner, events);
  }

  lemma Follow(app: Fd, inner: Fd, events: seq<Event>, e: Event) returns (next: seq<Event>)
    requires Run(app, inner, events).Some? && Enabled(Run(app, inner, events).value, e)
    ensures next == events + [e]
    ensures Run(app, inner, next) == Some(Apply(Run(app, inner, events).value, e))
  {
    next := events + [e];
    assert next[..|next| - 1] == events;
  }

  /** A run that leaves the end pending behind an unreadable fd. */
  lemma SelectCanMissTheEnd(app: Fd, inner: Fd, dg: Datagram) returns (events: seq<Event>)
    ensures Run(app, inner, events).Some?
    ensures var s := Run(app, inner, events).value;
            s.entry.eof && s.entry.queue == [] && s.unread == 0 && !s.ended && s.reader.Away?
  {
    assert Run(app, inner, []) == Some(Start(app, inner));
    hide Run;
    events := Follow(app, inner, [], Push(dg));
    events := Follow(app, inner, events, TransportEnds);
    events := Follow(app, inner, events, CallRecv);
    events := Follow(app, inner, events, TryOne);
  }
}
