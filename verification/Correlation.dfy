/**
 Request correlation in the RHP client (crates/rhpv2/src/client.rs): any number
 of threads inside `request`, the reader thread demultiplexing frames by id,
 timeouts, late replies and the end of the transport, in every interleaving.
 */
module Correlation {
  import opened Bytes

  type Key = nat   // one call of `request`

  const ID_LIMIT := 0x1_0000_0000_0000_0000

  datatype Frame = Frame(id: Option<nat>, body: nat)

  datatype Stage =
    | Numbered     // next_id drawn
    | Listed       // sender inserted in the pending map
    | Waiting      // frame written; in recv_timeout
    | Leaving(reply: Option<Frame>)   // answered, timed out, hung up or unsent; removal to come
    | Done(reply: Option<Frame>)      // returned; None is an error

  datatype Request = Request(id: nat, at: Stage, channel: seq<Frame>, got: seq<Frame>)

  /** Where an inbound frame went. */
  datatype Dest = ToRequest(key: Key) | ToPush

  datatype State = State(
    drawn: nat,                        // ids drawn so far
    pending: map<nat, Key>,            // id to the call holding the receiving end
    requests: map<Key, Request>,
    routed: seq<(Frame, Dest)>         // every parsed inbound frame, and where it went
  )

  datatype Event =
    | Start(r: Key) | Insert(r: Key) | Write(r: Key, ok: bool)
    | Receive(r: Key) | TimeOut(r: Key) | HangUp(r: Key) | Remove(r: Key)
    | Inbound(f: Frame) | ClearPending

  predicate IsAt(s: State, r: Key, a: Stage) {
    r in s.requests && s.requests[r].at == a
  }

  predicate Enabled(s: State, e: Event) {
    match e
    case Start(r) => r !in s.requests && s.drawn + 1 < ID_LIMIT   // fewer than 2^64 requests
    case Insert(r) => IsAt(s, r, Numbered)
    case Write(r, ok) => IsAt(s, r, Listed)
    case Receive(r) => IsAt(s, r, Waiting) && s.requests[r].channel != []
    case TimeOut(r) => IsAt(s, r, Waiting) && s.requests[r].channel == []
    case HangUp(r) => IsAt(s, r, Waiting) && s.requests[r].channel == [] && s.requests[r].id !in s.pending
    case Remove(r) => r in s.requests && s.requests[r].at.Leaving?
    case Inbound(f) => true
    case ClearPending => true
  }

  function Put(s: State, r: Key, q: Request): State {
    s.(requests := s.requests[r := q])
  }

  /** `reader_loop` on one parsed frame: an id-matched waiter, else push dispatch. */
  function Demultiplexed(s: State, f: Frame): State {
    if f.id.Some? && f.id.value in s.pending && s.pending[f.id.value] in s.requests then
      var r := s.pending[f.id.value];
      var q := s.requests[r];
      Put(s, r, q.(channel := q.channel + [f], got := q.got + [f])).(
        pending := s.pending - {f.id.value}, routed := s.routed + [(f, ToRequest(r))])
    else s.(routed := s.routed + [(f, ToPush)])
  }

  function Apply(s: State, e: Event): State
    requires Enabled(s, e)
  {
    match e
    case Start(r) => Put(s, r, Request(s.drawn + 1, Numbered, [], [])).(drawn := s.drawn + 1)
    case Insert(r) =>
      Put(s, r, s.requests[r].(at := Listed)).(pending := s.pending[s.requests[r].id := r])
    case Write(r, ok) => Put(s, r, s.requests[r].(at := if ok then Waiting else Leaving(None)))
    case Receive(r) =>
      var q := s.requests[r];
      Put(s, r, q.(at := Leaving(Some(q.channel[0])), channel := q.channel[1..]))
    case TimeOut(r) => Put(s, r, s.requests[r].(at := Leaving(None)))
    case HangUp(r) => Put(s, r, s.requests[r].(at := Leaving(None)))
    case Remove(r) =>
      Put(s, r, s.requests[r].(at := Done(s.requests[r].at.reply))).(pending := s.pending - {s.requests[r].id})
    case Inbound(f) => Demultiplexed(s, f)
    case ClearPending => s.(pending := map[])
  }

  /** The client's id counter and pending map in place; the transition system above interleaves these. */
  class Multiplexer {
    var nextId: nat             // an AtomicU64
    var pending: map<nat, Key>

    constructor ()
      ensures nextId == 0 && pending == map[]
    {
      nextId := 0;
      pending := map[];
    }

    /** Monotonic and never zero, until the 64-bit counter wraps. */
    method NextId() returns (id: nat)
      requires nextId < ID_LIMIT
      modifies this`nextId
      ensures nextId < ID_LIMIT
      ensures old(nextId) < 0xFFFF_FFFF_FFFF_FFFF ==> id == nextId == old(nextId) + 1
      ensures id == 0 <==> old(nextId) == 0xFFFF_FFFF_FFFF_FFFF
    {
      id := (1 + nextId) % ID_LIMIT;
      nextId := (nextId + 1) % ID_LIMIT;
    }

    method Insert(id: nat, r: Key)
      modifies this`pending
      ensures pending == old(pending)[id := r]
    {
      pending := pending[id := r];
    }

    method Remove(id: nat)
      modifies this`pending
      ensures pending == old(pending) - {id}
    {
      pending := pending - {id};
    }

    /** Takes the waiter for `f` out of the map; `None` means push dispatch. */
    method TakeWaiter(f: Frame) returns (r: Option<Key>)
      modifies this`pending
      ensures r == if f.id.Some? && f.id.value in old(pending) then Some(old(pending)[f.id.value]) else None
      ensures pending == if r.Some? then old(pending) - {f.id.value} else old(pending)
    {
      if f.id.Some? {
        if f.id.value in pending {
          r := Some(pending[f.id.value]);
          pending := pending - {f.id.value};
          return;
        }
      }
      r := None;
    }
  }

  // ---- Invariants ------------------------------------------------------

  /** The frames that were routed to call `r`, in order. */
  function FramesFor(routed: seq<(Frame, Dest)>, r: Key): seq<Frame>
    decreases |routed|
  {
    if routed == [] then []
    else
      var n := |routed| - 1;
      FramesFor(routed[..n], r) + if routed[n].1 == ToRequest(r) then [routed[n].0] else []
  }

  predicate MayBePending(a: Stage) {
    a.Listed? || a.Waiting? || a.Leaving?
  }

  predicate RequestInv(s: State, r: Key)
    requires r in s.requests
  {
    var q := s.requests[r];
    && 1 <= q.id <= s.drawn < ID_LIMIT
    && |q.got| <= 1
    && (forall f | f in q.got :: f.id == Some(q.id))
    && (q.channel == [] || q.channel == q.got)
    && (q.at.Numbered? ==> q.got == [])
    && (q.id in s.pending ==> s.pending[q.id] == r && MayBePending(q.at) && q.got == [])
    && (q.at.Leaving? && q.at.reply.Some? ==> q.at.reply.value in q.got && q.channel == [])
    && (q.at.Done? && q.at.reply.Some? ==> q.at.reply.value in q.got)
  }

  predicate PendingInv(s: State) {
    forall i | i in s.pending :: s.pending[i] in s.requests && s.requests[s.pending[i]].id == i
  }

  predicate DistinctIds(s: State) {
    forall q, r | q in s.requests && r in s.requests && s.requests[q].id == s.requests[r].id :: q == r
  }

  predicate GotInv(s: State, r: Key) {
    FramesFor(s.routed, r) == if r in s.requests then s.requests[r].got else []
  }

  ghost predicate Inv(s: State) {
    && PendingInv(s) && DistinctIds(s)
    && (forall r | r in s.requests :: RequestInv(s, r))
    && (forall r :: GotInv(s, r))
  }

  lemma RequestStep(s: State, e: Event, r: Key)
    requires Inv(s) && Enabled(s, e) && r in Apply(s, e).requests
    ensures RequestInv(Apply(s, e), r)
  {
    hide GotInv, FramesFor;
    assert r in s.requests ==> RequestInv(s, r);
    if e.Inbound? && e.f.id.Some? && e.f.id.value in s.pending {
      assert RequestInv(s, s.pending[e.f.id.value]);
    }
  }

  lemma TableStep(s: State, e: Event)
    requires Inv(s) && Enabled(s, e)
    ensures PendingInv(Apply(s, e)) && DistinctIds(Apply(s, e))
  {
    hide GotInv, FramesFor;
  }

  lemma GotStep(s: State, e: Event, r: Key)
    requires GotInv(s, r) && Enabled(s, e)
    ensures GotInv(Apply(s, e), r)
  {
    if e.Inbound? {
      assert Apply(s, e).routed[..|s.routed|] == s.routed;
    }
  }

  lemma StepKeepsInv(s: State, e: Event)
    requires Inv(s) && Enabled(s, e)
    ensures Inv(Apply(s, e))
  {
    TableStep(s, e);
    hide Enabled, Apply, RequestInv, GotInv, PendingInv, DistinctIds;
    forall r | r in Apply(s, e).requests ensures RequestInv(Apply(s, e), r) {
      RequestStep(s, e, r);
    }
    forall r ensures GotInv(Apply(s, e), r) {
      GotStep(s, e, r);
    }
  }

  const Fresh := State(0, map[], map[], [])

  /** The state after `events`, or `None` if one of them could not happen. */
  function Run(events: seq<Event>): Option<State>
    decreases |events|
  {
    if events == [] then Some(Fresh)
    else
      var n := |events| - 1;
      var before := Run(events[..n]);
      if before.Some? && Enabled(before.value, events[n]) then Some(Apply(before.value, events[n])) else None
  }

  lemma {:induction false} RunKeepsInv(events: seq<Event>)
    requires Run(events).Some?
    ensures Inv(Run(events).value)
    decreases |events|
  {
    if events != [] {
      var n := |events| - 1;
      RunKeepsInv(events[..n]);
      hide Inv, Enabled, Apply;
      StepKeepsInv(Run(events[..n]).value, events[n]);
    }
  }

  // ---- What every run guarantees ---------------------------------------

  /** Ids are never zero and no two calls share one. */
  lemma IdsAreDistinct(events: seq<Event>, q: Key, r: Key)
    requires Run(events).Some?
    requires q in Run(events).value.requests && r in Run(events).value.requests
    ensures var s := Run(events).value;
            s.requests[r].id != 0 && (s.requests[q].id == s.requests[r].id <==> q == r)
  {
    RunKeepsInv(events);
    assert RequestInv(Run(events).value, r);
  }

  /** A call is handed at most one frame, bearing its own id, and returns no other. */
  lemma RepliesAreOnesOwn(events: seq<Event>, r: Key)
    requires Run(events).Some? && r in Run(events).value.requests
    ensures var s := Run(events).value;
            && |FramesFor(s.routed, r)| <= 1
            && (forall f | f in FramesFor(s.routed, r) :: f.id == Some(s.requests[r].id))
            && (s.requests[r].at.Done? && s.requests[r].at.reply.Some? ==>
                  s.requests[r].at.reply.value in FramesFor(s.routed, r))
  {
    RunKeepsInv(events);
    assert RequestInv(Run(events).value, r) && GotInv(Run(events).value, r);
  }

  /**
   A call that took a frame off its channel returns that frame, and no other call
   returns one: the reply of a finished call is the frame routed to it, exactly if it
   received in time.
   */
  lemma ReceivedIsReturned(events: seq<Event>, r: Key)
    requires Run(events).Some? && r in Run(events).value.requests
    requires var a := Run(events).value.requests[r].at; a.Leaving? || a.Done?
    ensures var s := Run(events).value;
            if Receive(r) in events then
              FramesFor(s.routed, r) != [] && s.requests[r].at.reply == Some(FramesFor(s.routed, r)[0])
            else s.requests[r].at.reply == None
  {
    RunKeepsInv(events);
    var s := Run(events).value;
    ReplyTells(events, r);
    hide Run;
    assert RequestInv(s, r) && GotInv(s, r);
  }

  predicate HasReply(s: State, r: Key) {
    r in s.requests && (s.requests[r].at.Leaving? || s.requests[r].at.Done?) && s.requests[r].at.reply.Some?
  }

  lemma ReplyStep(s: State, e: Event, r: Key)
    requires Enabled(s, e)
    ensures HasReply(Apply(s, e), r) <==> HasReply(s, r) || e == Receive(r)
  {
  }

  lemma {:induction false} ReplyTells(events: seq<Event>, r: Key)
    requires Run(events).Some?
    ensures HasReply(Run(events).value, r) <==> Receive(r) in events
    decreases |events|
  {
    if events != [] {
      hide HasReply, Enabled, Apply;
      var n := |events| - 1;
      ReplyTells(events[..n], r);
      ReplyStep(Run(events[..n]).value, events[n], r);
      assert events == events[..n] + [events[n]];
    }
  }

  /** Whether `r` was entered in the pending map and the map has not been cleared since. */
  predicate Entered(events: seq<Event>, r: Key)
    decreases |events|
  {
    if events == [] then false
    else
      var n := |events| - 1;
      events[n] == Insert(r) || (events[n] != ClearPending && Entered(events[..n], r))
  }

  /** A call that waits for its reply is in the map exactly until its frame comes or the map is cleared. */
  lemma {:induction false} PendingIff(events: seq<Event>, r: Key)
    requires Run(events).Some? && r in Run(events).value.requests
    requires var a := Run(events).value.requests[r].at; a.Listed? || a.Waiting?
    ensures var s := Run(events).value;
            var i := s.requests[r].id;
            (i in s.pending && s.pending[i] == r) <==> FramesFor(s.routed, r) == [] && Entered(events, r)
    decreases |events|
  {
    RunKeepsInv(events);
    PendingTells(events, r);
    assert GotInv(Run(events).value, r);
  }

  /** `r` is between its insertion and its removal. */
  predicate Out(s: State, r: Key) {
    r in s.requests && (s.requests[r].at.Listed? || s.requests[r].at.Waiting?)
  }

  predicate Tells(s: State, r: Key, entered: bool) {
    && (Out(s, r) ==>
          var q := s.requests[r]; (q.id in s.pending && s.pending[q.id] == r) <==> q.got == [] && entered)
    && (entered ==> r in s.requests && !s.requests[r].at.Numbered?)
  }

  lemma TellsStep(s: State, e: Event, r: Key, entered: bool)
    requires Inv(s) && Enabled(s, e) && Tells(s, r, entered)
    ensures Tells(Apply(s, e), r, e == Insert(r) || (e != ClearPending && entered))
  {
    hide GotInv, FramesFor;
    assert r in s.requests ==> RequestInv(s, r);
  }

  lemma {:induction false} PendingTells(events: seq<Event>, r: Key)
    requires Run(events).Some?
    ensures Tells(Run(events).value, r, Entered(events, r))
    decreases |events|
  {
    if events != [] {
      var n := |events| - 1;
      RunKeepsInv(events[..n]);
      PendingTells(events[..n], r);
      hide Inv, Enabled, Apply, Tells;
      TellsStep(Run(events[..n]).value, events[n], r, Entered(events[..n], r));
    }
  }

  /** A waiting call can always go on once the transport has ended: its reply is there, or it is hung up on. */
  lemma ClearPendingFaultsEveryone(events: seq<Event>, r: Key)
    requires Run(events).Some? && IsAt(Run(events).value, r, Waiting)
    ensures var t := Apply(Run(events).value, ClearPending);
            if t.requests[r].channel != [] then Enabled(t, Receive(r)) else Enabled(t, HangUp(r))
  {
    hide Run;
  }

  lemma Follow(events: seq<Event>, e: Event) returns (next: seq<Event>)
    requires Run(events).Some? && Enabled(Run(events).value, e)
    ensures next == events + [e] && Run(next) == Some(Apply(Run(events).value, e))
  {
    next := events + [e];
    assert next[..|next| - 1] == events;
  }

  /** Whatever else is going on, a new call can run to its end, and returns the frame that answers it. */
  lemma RequestRoundTrips(events: seq<Event>, r: Key, body: nat) returns (next: seq<Event>)
    requires Run(events).Some? && Enabled(Run(events).value, Start(r))
    ensures events <= next && Run(next).Some? && r in Run(next).value.requests
    ensures var q := Run(next).value.requests[r];
            q.at == Done(Some(Frame(Some(q.id), body))) && q.id !in Run(next).value.pending
  {
    hide Run;
    var f := Frame(Some(Run(events).value.drawn + 1), body);
    next := Follow(events, Start(r));
    next := Follow(next, Insert(r));
    next := Follow(next, Write(r, true));
    assert IsAt(Run(next).value, r, Waiting) && Run(next).value.pending[f.id.value] == r;
    next := Follow(next, Inbound(f));
    assert Run(next).value.requests[r].channel == [f];
    next := Follow(next, Receive(r));
    next := Follow(next, Remove(r));
  }

  /** The frames that `events` bring in, in order. */
  function AllInbound(events: seq<Event>): seq<Frame>
    decreases |events|
  {
    if events == [] then []
    else
      var n := |events| - 1;
      AllInbound(events[..n]) + if events[n].Inbound? then [events[n].f] else []
  }

  function Frames(routed: seq<(Frame, Dest)>): (fs: seq<Frame>)
    ensures |fs| == |routed|
  {
    seq(|routed|, i requires 0 <= i < |routed| => routed[i].0)
  }

  /** Every parsed frame goes to exactly one place: one routing record each, in order. */
  lemma {:induction false} EveryFrameGoesOnePlace(events: seq<Event>)
    requires Run(events).Some?
    ensures Frames(Run(events).value.routed) == AllInbound(events)
    decreases |events|
  {
    if events != [] {
      var n := |events| - 1;
      EveryFrameGoesOnePlace(events[..n]);
      var s := Run(events[..n]).value;
      if events[n].Inbound? {
        assert Frames(Apply(s, events[n]).routed) == Frames(s.routed) + [events[n].f];
      } else {
        assert Apply(s, events[n]).routed == s.routed;
      }
    }
  }

  /** A frame reaches a waiter exactly when a call with its id is pending at that moment. */
  lemma FrameReachesWaiterIff(events: seq<Event>, f: Frame)
    requires Run(events).Some?
    ensures var s := Run(events).value;
            var t := Apply(s, Inbound(f));
            (exists r | r in s.requests :: t.requests[r].got == s.requests[r].got + [f]) <==>
            (exists r | r in s.requests :: f.id == Some(s.requests[r].id) && s.requests[r].id in s.pending)
  {
    RunKeepsInv(events);
    var s := Run(events).value;
    var t := Apply(s, Inbound(f));
    if f.id.Some? && f.id.value in s.pending {
      var r := s.pending[f.id.value];
      assert RequestInv(s, r);
      assert t.requests[r].got == s.requests[r].got + [f];
      assert f.id == Some(s.requests[r].id) && s.requests[r].id in s.pending;
    } else {
      forall r | r in s.requests ensures t.requests[r].got != s.requests[r].got + [f] {
        assert |t.requests[r].got| == |s.requests[r].got|;
      }
    }
  }
}
