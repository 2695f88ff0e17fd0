/**
 `wait_accept` and the accept queues against the reader thread
 (crates/rhpv2/src/client.rs). It is `wait_connected`'s twin but for one thing:
 when the transport drops, the reader notifies without ever taking the map lock,
 so a waiter between its look at `closed` and its wait misses the notification.
 */
module AcceptWait {
  import opened Bytes

  type Wid = nat
  type Child = nat

  datatype WaiterAt =
    | Locking                     // wants the map lock
    | Holding                     // has the lock, about to pop
    | FoundNone                   // has the lock, popped nothing
    | Parking                     // has the lock, then read closed == false
    | Asleep                      // in cv.wait, not notified
    | Done(child: Option<Child>)

  datatype Waiter = Waiter(listener: Handle, at: WaiterAt)

  datatype ReaderAt =
    | Idle         // between frames
    | MustNotify   // queued a child; notify_all still to come
    | StoredClosed // closed is set; the last notify_all still to come
    | Gone         // past it

  datatype State = State(
    queues: map<Handle, seq<Child>>,
    closed: bool,
    reader: ReaderAt,
    waiters: map<Wid, Waiter>,
    // history
    pushed: map<Handle, seq<Child>>,   // children queued since the listener's last forget
    popped: map<Handle, seq<Child>>,   // children handed to an accept since then
    missed: set<Wid>,                  // waiters in the window when the last notify ran
    roused: set<Wid>                   // waiters that woke spuriously afterwards
  )

  datatype Event =
    | Arrive(w: Wid, listener: Handle) | Lock(w: Wid) | Pop(w: Wid) | ReadClosed(w: Wid) | Park(w: Wid)
    | Spurious(w: Wid)
    | TryAccept(listener: Handle) | Drop(listener: Handle)
    | Push(listener: Handle, child: Child) | Notify | StoreClosed | NotifyGone

  function Of(m: map<Handle, seq<Child>>, h: Handle): seq<Child> {
    if h in m then m[h] else []
  }

  /** `AcceptRegistry`: the mutex-guarded queues; each method is one critical section. */
  class AcceptRegistry {
    var queues: map<Handle, seq<Child>>

    constructor ()
      ensures queues == map[]
    {
      queues := map[];
    }

    method Push(listener: Handle, child: Child)
      modifies this
      ensures forall k :: Of(queues, k) == old(Of(queues, k)) + if k == listener then [child] else []
    {
      queues := queues[listener := Of(queues, listener) + [child]];
    }

    /** `None` when nobody waits; otherwise the oldest child, which leaves the queue. */
    method TryAccept(listener: Handle) returns (r: Option<Child>)
      modifies this
      ensures old(Of(queues, listener)) == (if r.Some? then [r.value] else []) + Of(queues, listener)
      ensures r.None? <==> old(Of(queues, listener)) == []
      ensures forall k | k != listener :: Of(queues, k) == old(Of(queues, k))
    {
      var q := Of(queues, listener);
      if q == [] {
        return None;
      }
      queues := queues[listener := q[1..]];
      r := Some(q[0]);
    }

    method Forget(listener: Handle)
      modifies this
      ensures forall k :: Of(queues, k) == if k == listener then [] else old(Of(queues, k))
    {
      queues := queues - {listener};
    }
  }

  predicate HoldsLock(a: WaiterAt) {
    a.Holding? || a.FoundNone? || a.Parking?
  }

  predicate LockFree(s: State) {
    forall w | w in s.waiters :: !HoldsLock(s.waiters[w].at)
  }

  predicate IsAt(s: State, w: Wid, a: WaiterAt) {
    w in s.waiters && s.waiters[w].at == a
  }

  predicate Enabled(s: State, e: Event) {
    match e
    case Arrive(w, l) => w !in s.waiters
    case Lock(w) => IsAt(s, w, Locking) && LockFree(s)
    case Pop(w) => IsAt(s, w, Holding)
    case ReadClosed(w) => IsAt(s, w, FoundNone)
    case Park(w) => IsAt(s, w, Parking)
    case Spurious(w) => IsAt(s, w, Asleep)
    case TryAccept(l) => LockFree(s)
    case Drop(l) => LockFree(s)
    case Push(l, c) => s.reader.Idle? && LockFree(s)
    case Notify => s.reader.MustNotify?
    case StoreClosed => s.reader.Idle?
    case NotifyGone => s.reader.StoredClosed?   // whoever holds the lock
  }

  function Put(s: State, w: Wid, a: WaiterAt): State
    requires w in s.waiters
  {
    s.(waiters := s.waiters[w := s.waiters[w].(at := a)])
  }

  function TakeFirst(s: State, l: Handle): State
    requires Of(s.queues, l) != []
  {
    var q := Of(s.queues, l);
    s.(queues := s.queues[l := q[1..]], popped := s.popped[l := Of(s.popped, l) + [q[0]]])
  }

  function Woken(ws: map<Wid, Waiter>): map<Wid, Waiter> {
    map w | w in ws :: if ws[w].at.Asleep? then ws[w].(at := Locking) else ws[w]
  }

  function Apply(s: State, e: Event): State
    requires Enabled(s, e)
  {
    match e
    case Arrive(w, l) => s.(waiters := s.waiters[w := Waiter(l, Locking)])
    case Lock(w) => Put(s, w, Holding)
    case Pop(w) =>
      var l := s.waiters[w].listener;
      if Of(s.queues, l) == [] then Put(s, w, FoundNone)
      else Put(TakeFirst(s, l), w, Done(Some(Of(s.queues, l)[0])))
    case ReadClosed(w) => Put(s, w, if s.closed then Done(None) else Parking)
    case Park(w) => Put(s, w, Asleep)
    case Spurious(w) => Put(s, w, Locking).(roused := if s.reader.Gone? then s.roused + {w} else s.roused)
    case TryAccept(l) => if Of(s.queues, l) == [] then s else TakeFirst(s, l)
    case Drop(l) => s.(queues := s.queues - {l}, pushed := s.pushed - {l}, popped := s.popped - {l})
    case Push(l, c) =>
      s.(queues := s.queues[l := Of(s.queues, l) + [c]],
         pushed := s.pushed[l := Of(s.pushed, l) + [c]], reader := MustNotify)
    case Notify => s.(waiters := Woken(s.waiters), reader := Idle)
    case StoreClosed => s.(closed := true, reader := StoredClosed)
    case NotifyGone =>
      s.(waiters := Woken(s.waiters), reader := Gone,
         missed := set w | w in s.waiters && s.waiters[w].at.Parking?)
  }

  // ---- Invariants ------------------------------------------------------

  predicate OneHolder(s: State) {
    forall v, w | v in s.waiters && w in s.waiters && HoldsLock(s.waiters[v].at) && HoldsLock(s.waiters[w].at) ::
      v == w
  }

  /** Every child queued at `l` has been handed out, in order, or still waits. */
  predicate LineInv(s: State, l: Handle) {
    Of(s.pushed, l) == Of(s.popped, l) + Of(s.queues, l)
  }

  predicate ReaderInv(s: State) {
    && (s.closed <==> s.reader.StoredClosed? || s.reader.Gone?)
    && (!s.reader.Gone? ==> s.missed == {} && s.roused == {})
    && s.missed <= s.waiters.Keys
  }

  predicate WaiterInv(s: State, w: Wid)
    requires w in s.waiters
  {
    var a := s.waiters[w].at;
    var q := Of(s.queues, s.waiters[w].listener);
    && (a.FoundNone? || a.Parking? ==> q == [])
    && (a.Asleep? && q != [] ==> s.reader.MustNotify?)
    && (s.reader.Gone? ==> ((a.Asleep? || a.Parking?) <==> w in s.missed && w !in s.roused))
  }

  ghost predicate Inv(s: State) {
    && OneHolder(s)
    && ReaderInv(s)
    && (forall l :: LineInv(s, l))
    && forall w | w in s.waiters :: WaiterInv(s, w)
  }

  lemma LineStep(s: State, e: Event, l: Handle)
    requires LineInv(s, l) && Enabled(s, e)
    ensures LineInv(Apply(s, e), l)
  {
    match e
    case Pop(w) =>
      if Of(s.queues, s.waiters[w].listener) != [] {
        TakingKeepsLine(s, s.waiters[w].listener, l);
      }
    case TryAccept(k) =>
      if Of(s.queues, k) != [] {
        TakingKeepsLine(s, k, l);
      }
    case Push(k, c) =>
      assert Of(s.pushed, l) + [c] == Of(s.popped, l) + (Of(s.queues, l) + [c]);
    case _ =>
  }

  lemma TakingKeepsLine(s: State, k: Handle, l: Handle)
    requires LineInv(s, l) && Of(s.queues, k) != []
    ensures LineInv(TakeFirst(s, k), l)
  {
    var q := Of(s.queues, k);
    assert q == [q[0]] + q[1..];
    assert Of(s.popped, k) + q == (Of(s.popped, k) + [q[0]]) + q[1..];
  }

  lemma ReaderStep(s: State, e: Event)
    requires ReaderInv(s) && Enabled(s, e)
    ensures ReaderInv(Apply(s, e))
  {
  }

  lemma HolderStep(s: State, e: Event)
    requires OneHolder(s) && Enabled(s, e)
    ensures OneHolder(Apply(s, e))
  {
  }

  lemma WaiterStep(s: State, e: Event, w: Wid)
    requires OneHolder(s) && ReaderInv(s) && Enabled(s, e) && w in Apply(s, e).waiters
    requires w in s.waiters ==> WaiterInv(s, w)
    ensures WaiterInv(Apply(s, e), w)
  {
  }

  lemma StepKeepsInv(s: State, e: Event)
    requires Inv(s) && Enabled(s, e)
    ensures Inv(Apply(s, e))
  {
    ReaderStep(s, e);
    HolderStep(s, e);
    hide Enabled, Apply, WaiterInv, LineInv, ReaderInv, OneHolder;
    forall l ensures LineInv(Apply(s, e), l) {
      LineStep(s, e, l);
    }
    forall w | w in Apply(s, e).waiters ensures WaiterInv(Apply(s, e), w) {
      WaiterStep(s, e, w);
    }
  }

  const Start := State(map[], false, Idle, map[], map[], map[], {}, {})

  /** The state after `events`, or `None` if one of them could not happen. */
  function Run(events: seq<Event>): Option<State>
    decreases |events|
  {
    if events == [] then Some(Start)
    else
      var n := |events| - 1;
      var before := Run(events[..n]);
      if before.Some? && Enabled(before.value, events[n]) then Some(Apply(before.value, events[n])) else None
  }

  lemma {:induction false} RunKeepsInv(events: seq<Event>)
    requires Run(events).Some?
    ensures Inv(Run(events).value)
    decreases |events|
  {
    if events != [] {
      var n := |events| - 1;
      RunKeepsInv(events[..n]);
      hide Inv, Enabled, Apply;
      StepKeepsInv(Run(events[..n]).value, events[n]);
    }
  }

  // ---- What every run guarantees, and what it does not -----------------

  /** The children that `events` queue at `l` since it was last forgotten. */
  function Arrivals(events: seq<Event>, l: Handle): seq<Child>
    decreases |events|
  {
    if events == [] then []
    else
      var n := |events| - 1;
      match events[n]
      case Push(k, c) => Arrivals(events[..n], l) + if k == l then [c] else []
      case Drop(k) => if k == l then [] else Arrivals(events[..n], l)
      case _ => Arrivals(events[..n], l)
  }

  /** `pushed` is the arrivals of the run, in order: no accept the engine announced is missing. */
  lemma {:induction false} PushedAreTheArrivals(events: seq<Event>, l: Handle)
    requires Run(events).Some?
    ensures Of(Run(events).value.pushed, l) == Arrivals(events, l)
    decreases |events|
  {
    if events != [] {
      hide Enabled;
      var n := |events| - 1;
      PushedAreTheArrivals(events[..n], l);
      PushedStep(Run(events[..n]).value, events[n], l);
      hide Apply, Of;
    }
  }

  lemma PushedStep(s: State, e: Event, l: Handle)
    requires Enabled(s, e)
    ensures Of(Apply(s, e).pushed, l) ==
            if e.Push? && e.listener == l then Of(s.pushed, l) + [e.child]
            else if e == Drop(l) then [] else Of(s.pushed, l)
  {
    hide LockFree;
  }

  /** Children reach the accept calls once each and in order of arrival. */
  lemma ChildrenAreAcceptedInOrder(events: seq<Event>, l: Handle)
    requires Run(events).Some?
    ensures var s := Run(events).value; Of(s.pushed, l) == Of(s.popped, l) + Of(s.queues, l)
  {
    RunKeepsInv(events);
    assert LineInv(Run(events).value, l);
  }

  /**
   What a look at the queue leads to, in every run: the oldest child, handed out and
   taken off, if there is one; otherwise on to the `closed` flag, and then None exactly
   if the transport is closed.
   */
  lemma PopHandsOutTheOldest(events: seq<Event>, w: Wid)
    requires Run(events).Some? && Enabled(Run(events).value, Pop(w))
    ensures var s := Run(events).value;
            var l := s.waiters[w].listener;
            var t := Apply(s, Pop(w));
            if Of(s.queues, l) != [] then
              var c := Of(s.queues, l)[0];
              && t.waiters[w].at == Done(Some(c))
              && Of(t.popped, l) == Of(s.popped, l) + [c] && [c] + Of(t.queues, l) == Of(s.queues, l)
            else t.waiters[w].at == FoundNone && t.popped == s.popped && t.queues == s.queues
  {
    hide Run;
  }

  lemma ClosedDecides(events: seq<Event>, w: Wid)
    requires Run(events).Some? && Enabled(Run(events).value, ReadClosed(w))
    ensures var s := Run(events).value;
            Apply(s, ReadClosed(w)).waiters[w].at == if s.closed then Done(None) else Parking
  {
    hide Run;
  }

  /** A non-blocking accept takes the oldest child off, too, and leaves every waiter where it is. */
  lemma TryAcceptTakesTheOldest(events: seq<Event>, l: Handle)
    requires Run(events).Some? && Enabled(Run(events).value, TryAccept(l))
    ensures var s := Run(events).value;
            var t := Apply(s, TryAccept(l));
            && t.waiters == s.waiters
            && if Of(s.queues, l) != [] then
                 var c := Of(s.queues, l)[0];
                 Of(t.popped, l) == Of(s.popped, l) + [c] && [c] + Of(t.queues, l) == Of(s.queues, l)
               else t == s
  {
    hide Run, LockFree;
  }

  /** What a waiter that returned `r` saw in its last step. */
  predicate Answered(s: State, e: Event, w: Wid, r: Option<Child>) {
    && Enabled(s, e) && w in s.waiters
    && var l := s.waiters[w].listener;
       if r.Some? then e == Pop(w) && Of(s.queues, l) != [] && Of(s.queues, l)[0] == r.value
       else e == ReadClosed(w) && s.closed
  }

  lemma StepAnswers(s: State, e: Event, w: Wid, r: Option<Child>)
    requires Enabled(s, e) && IsAt(Apply(s, e), w, Done(r)) && !IsAt(s, w, Done(r))
    ensures Answered(s, e, w, r)
  {
    hide LockFree;
  }

  ghost predicate WasAnswered(events: seq<Event>, w: Wid, r: Option<Child>) {
    exists i | 0 <= i < |events| :: Run(events[..i]).Some? && Answered(Run(events[..i]).value, events[i], w, r)
  }

  lemma WasAnsweredSnoc(events: seq<Event>, w: Wid, r: Option<Child>)
    requires events != [] && Run(events[..|events| - 1]).Some?
    requires WasAnswered(events[..|events| - 1], w, r)
             || Answered(Run(events[..|events| - 1]).value, events[|events| - 1], w, r)
    ensures WasAnswered(events, w, r)
  {
    hide Run, Answered;
    var n := |events| - 1;
    if WasAnswered(events[..n], w, r) {
      var i :| 0 <= i < n && Run(events[..n][..i]).Some? && Answered(Run(events[..n][..i]).value, events[..n][i], w, r);
      assert events[..n][..i] == events[..i] && events[..n][i] == events[i];
    }
  }

  /** Every child an accept returned was the oldest in its queue; it returned None only once the transport closed. */
  lemma {:induction false} EveryAnswerWasSeen(events: seq<Event>, w: Wid, r: Option<Child>)
    requires Run(events).Some? && IsAt(Run(events).value, w, Done(r))
    ensures WasAnswered(events, w, r)
    decreases |events|
  {
    if events != [] {
      var n := |events| - 1;
      var s, e := Run(events[..n]).value, events[n];
      assert Run(events).value == Apply(s, e) && Enabled(s, e);
      hide Run, Enabled, Apply, WasAnswered, Answered;
      if IsAt(s, w, Done(r)) {
        EveryAnswerWasSeen(events[..n], w, r);
      } else {
        StepAnswers(s, e, w, r);
      }
      WasAnsweredSnoc(events, w, r);
    }
  }

  /** No child waits beside a sleeping acceptor: the reader's next step is the notify. */
  lemma PushesAreNeverMissed(events: seq<Event>, w: Wid)
    requires Run(events).Some? && IsAt(Run(events).value, w, Asleep)
    requires Of(Run(events).value.queues, Run(events).value.waiters[w].listener) != []
    ensures Enabled(Run(events).value, Notify)
    ensures IsAt(Apply(Run(events).value, Notify), w, Locking)
  {
    RunKeepsInv(events);
    assert WaiterInv(Run(events).value, w);
  }

  /** An accept that sleeps returns the next child that arrives, by the reader's and its own steps alone. */
  lemma ArrivalEndsTheWait(events: seq<Event>, w: Wid, c: Child) returns (next: seq<Event>)
    requires Run(events).Some? && IsAt(Run(events).value, w, Asleep)
    requires Run(events).value.reader.Idle? && LockFree(Run(events).value)
    ensures events <= next && Run(next).Some? && IsAt(Run(next).value, w, Done(Some(c)))
  {
    RunKeepsInv(events);
    var s := Run(events).value;
    var l := s.waiters[w].listener;
    assert WaiterInv(s, w);
    hide Run, Inv, WaiterInv;
    next := Follow(events, Push(l, c));
    next := Follow(next, Notify);
    WokenTakesTheLock(Run(next).value, w);
    next := Follow(next, Lock(w));
    next := Follow(next, Pop(w));
  }

  lemma WokenTakesTheLock(s: State, w: Wid)
    requires IsAt(s, w, Locking) && LockFree(s)
    ensures Enabled(s, Lock(w))
  {
  }

  /**
   Exactly who the transport drop strands: after the reader's last notify, an
   acceptor is asleep or on its way to sleep if and only if it was between its
   look at `closed` and its wait when that notify ran, and has not woken on its
   own since. No further event of the client wakes it.
   */
  lemma DropStrandsIff(events: seq<Event>, w: Wid)
    requires Run(events).Some? && Run(events).value.reader.Gone?
    requires w in Run(events).value.waiters
    ensures var s := Run(events).value;
            (s.waiters[w].at.Asleep? || s.waiters[w].at.Parking?) <==> (w in s.missed && w !in s.roused)
  {
    RunKeepsInv(events);
    assert WaiterInv(Run(events).value, w);
  }

  /** Once stranded, asleep for good: no event but a spurious wakeup of `w` itself moves it. */
  lemma {:induction false} StrandedForGood(s: State, events: seq<Event>, w: Wid)
    requires s.reader.Gone? && IsAt(s, w, Asleep)
    requires Spurious(w) !in events
    requires After(s, events).Some?
    ensures IsAt(After(s, events).value, w, Asleep)
    decreases |events|
  {
    if events != [] {
      StrandedForGood(Apply(s, events[0]), events[1..], w);
    }
  }

  /** `events` from state `s` on. */
  function After(s: State, events: seq<Event>): Option<State>
    decreases |events|
  {
    if events == [] then Some(s)
    else if Enabled(s, events[0]) then After(Apply(s, events[0]), events[1..])
    else None
  }

  lemma Follow(events: seq<Event>, e: Event) returns (next: seq<Event>)
    requires Run(events).Some? && Enabled(Run(events).value, e)
    ensures next == events + [e] && Run(next) == Some(Apply(Run(events).value, e))
  {
    next := events + [e];
    assert next[..|next| - 1] == events;
  }

  /** A run in which accept() sleeps on after the transport has dropped. */
  lemma DropCanStrand(w: Wid, l: Handle) returns (events: seq<Event>)
    ensures Run(events).Some?
    ensures Run(events).value.reader.Gone? && IsAt(Run(events).value, w, Asleep)
  {
    events := AboutToSleep(w, l);
    hide Run;
    events := Follow(events, StoreClosed);
    events := Follow(events, NotifyGone);
    events := Follow(events, Park(w));
  }

  lemma AboutToSleep(w: Wid, l: Handle) returns (events: seq<Event>)
    ensures Run(events) == Some(Start.(waiters := map[w := Waiter(l, Parking)]))
  {
    assert Run([]) == Some(Start);
    hide Run;
    events := Follow([], Arrive(w, l));
    events := Follow(events, Lock(w));
    assert Run(events).value == Start.(waiters := map[w := Waiter(l, Holding)]);
    events := Follow(events, Pop(w));
    events := Follow(events, ReadClosed(w));
    assert Run(events).value.waiters == map[w := Waiter(l, Parking)];
  }
}
