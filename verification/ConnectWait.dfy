/**
 `wait_connected` against the reader thread: the mutex, the condition variable
 and the `closed` flag, which is not guarded by that mutex
 (crates/rhpv2/src/client.rs). Any number of waiters on any handles.
 */
module ConnectWait {
  import opened Bytes
  import opened ConnRegistry

  type Wid = nat

  const ETIMEDOUT := 110

  /** What a wait returned: 0 for Ok, else the errno. */
  datatype WaiterAt =
    | Locking              // wants the map lock: at the start, and after each wakeup
    | Holding              // has the lock, about to look at the entry
    | Undecided            // has the lock, saw no terminal entry
    | Parking              // has the lock, then read closed == false
    | Asleep               // in cv.wait: lock released, not notified
    | TimedOut             // the wait timed out; wants the lock for a last look
    | Done(errno: int)

  datatype Waiter = Waiter(h: Handle, at: WaiterAt)

  datatype ReaderAt =
    | Idle        // between frames
    | MustNotify  // changed an entry, lock released, notify_all still to come
    | StoredClosed
    | ClearedPending
    | FailedAll   // fail_all_pending changed the entries; its notify_all still to come
    | Gone        // past that notify_all

  datatype State = State(
    entries: map<Handle, Phase>,
    closed: bool,
    reader: ReaderAt,
    waiters: map<Wid, Waiter>,
    // history
    up: set<Handle>,     // a status(Connected) was dispatched
    taken: set<Handle>   // a failure was read and cleared through SO_ERROR
  )

  datatype Event =
    | Arrive(w: Wid, h: Handle) | Lock(w: Wid) | ReadEntry(w: Wid) | ReadClosed(w: Wid) | Park(w: Wid)
    | TimeOut(w: Wid) | Spurious(w: Wid) | LastLook(w: Wid)
    // critical sections of other callers
    | Track(h: Handle) | Take(h: Handle) | Drop(h: Handle)
    // reader thread
    | MarkUp(h: Handle) | MarkDown(h: Handle, code: int) | Notify
    | StoreClosed | ClearPending | FailAll | NotifyAll

  function EntryOf(s: State, h: Handle): Entry {
    if h in s.entries then Some(s.entries[h]) else None
  }

  predicate HoldsLock(a: WaiterAt) {
    a.Holding? || a.Undecided? || a.Parking?
  }

  predicate LockFree(s: State) {
    forall w | w in s.waiters :: !HoldsLock(s.waiters[w].at)
  }

  predicate IsAt(s: State, w: Wid, a: WaiterAt) {
    w in s.waiters && s.waiters[w].at == a
  }

  predicate Enabled(s: State, e: Event) {
    match e
    case Arrive(w, h) => w !in s.waiters
    case Lock(w) => IsAt(s, w, Locking) && LockFree(s)
    case ReadEntry(w) => IsAt(s, w, Holding)
    case ReadClosed(w) => IsAt(s, w, Undecided)
    case Park(w) => IsAt(s, w, Parking)
    case TimeOut(w) => IsAt(s, w, Asleep)
    case Spurious(w) => IsAt(s, w, Asleep)
    case LastLook(w) => IsAt(s, w, TimedOut) && LockFree(s)
    case Track(h) => LockFree(s)
    case Take(h) => LockFree(s)   // a getsockopt that got this client while it was open
    case Drop(h) => LockFree(s)
    case MarkUp(h) => s.reader.Idle? && LockFree(s)
    case MarkDown(h, code) => s.reader.Idle? && LockFree(s)
    case Notify => s.reader.MustNotify?
    case StoreClosed => s.reader.Idle?
    case ClearPending => s.reader.StoredClosed?
    case FailAll => s.reader.ClearedPending? && LockFree(s)
    case NotifyAll => s.reader.FailedAll?
  }

  function Put(s: State, w: Wid, a: WaiterAt): State
    requires w in s.waiters
  {
    s.(waiters := s.waiters[w := s.waiters[w].(at := a)])
  }

  /** The registry after one of its operations on `h`. */
  function Update(s: State, h: Handle, op: Op): map<Handle, Phase> {
    var e := ApplyOp(EntryOf(s, h), op);
    if e.Some? then s.entries[h := e.value] else s.entries - {h}
  }

  function FailEntries(m: map<Handle, Phase>): map<Handle, Phase> {
    map h | h in m :: if m[h].Pending? then Failed(ECONNRESET) else m[h]
  }

  function Woken(ws: map<Wid, Waiter>): map<Wid, Waiter> {
    map w | w in ws :: if ws[w].at.Asleep? then ws[w].(at := Locking) else ws[w]
  }

  /** Ok, the stored errno, or `undecided` when the entry is not terminal. */
  function Answer(e: Entry, undecided: WaiterAt): WaiterAt {
    if Terminal(e) then Done(TakenErrno(e)) else undecided
  }

  function Apply(s: State, e: Event): State
    requires Enabled(s, e)
  {
    match e
    case Arrive(w, h) => s.(waiters := s.waiters[w := Waiter(h, Locking)])
    case Lock(w) => Put(s, w, Holding)
    case ReadEntry(w) => Put(s, w, Answer(EntryOf(s, s.waiters[w].h), Undecided))
    case ReadClosed(w) => Put(s, w, if s.closed then Done(ECONNRESET) else Parking)
    case Park(w) => Put(s, w, Asleep)
    case TimeOut(w) => Put(s, w, TimedOut)
    case Spurious(w) => Put(s, w, Locking)
    case LastLook(w) => Put(s, w, Answer(EntryOf(s, s.waiters[w].h), Done(ETIMEDOUT)))
    case Track(h) => s.(entries := Update(s, h, SetPending))
    case Take(h) =>
      s.(entries := Update(s, h, TakeError),
         taken := if TakenErrno(EntryOf(s, h)) != 0 then s.taken + {h} else s.taken)
    case Drop(h) => s.(entries := Update(s, h, Forget))
    case MarkUp(h) =>
      s.(entries := Update(s, h, StatusConnected), reader := MustNotify, up := s.up + {h})
    case MarkDown(h, code) => s.(entries := Update(s, h, ServerClose(code)), reader := MustNotify)
    case Notify => s.(waiters := Woken(s.waiters), reader := Idle)
    case StoreClosed => s.(closed := true, reader := StoredClosed)
    case ClearPending => s.(reader := ClearedPending)
    case FailAll => s.(entries := FailEntries(s.entries), reader := FailedAll)
    case NotifyAll => s.(waiters := Woken(s.waiters), reader := Gone)
  }

  // ---- Invariants ------------------------------------------------------

  predicate OneHolder(s: State) {
    forall v, w | v in s.waiters && w in s.waiters && HoldsLock(s.waiters[v].at) && HoldsLock(s.waiters[w].at) ::
      v == w
  }

  /** What is true of a waiter from its look at the entry until it is notified. */
  predicate WaiterInv(s: State, w: Wid)
    requires w in s.waiters
  {
    var a := s.waiters[w].at;
    var terminal := Terminal(EntryOf(s, s.waiters[w].h));
    && (a.Undecided? || a.Parking? ==> !terminal)
    && (a.Parking? ==> !s.reader.FailedAll? && !s.reader.Gone?)
    && (a.Asleep? && terminal ==> s.reader.MustNotify? || s.reader.FailedAll?)
    && (a.Asleep? ==> !s.reader.Gone?)
    && (a == Done(0) ==> s.waiters[w].h in s.up + s.taken)
  }

  predicate EntriesInv(s: State) {
    && (s.closed <==> !s.reader.Idle? && !s.reader.MustNotify?)
    && (forall h | h in s.entries :: Honest(Some(s.entries[h])))
    && (forall h | h in s.entries && s.entries[h].Connected? :: h in s.up + s.taken)
  }

  predicate Inv(s: State) {
    && OneHolder(s)
    && EntriesInv(s)
    && forall w | w in s.waiters :: WaiterInv(s, w)
  }

  lemma EntriesStep(s: State, e: Event)
    requires Inv(s) && Enabled(s, e)
    ensures EntriesInv(Apply(s, e))
  {
  }

  lemma HolderStep(s: State, e: Event)
    requires Inv(s) && Enabled(s, e)
    ensures OneHolder(Apply(s, e))
  {
  }

  lemma WaiterStep(s: State, e: Event, w: Wid)
    requires Inv(s) && Enabled(s, e) && w in Apply(s, e).waiters
    ensures WaiterInv(Apply(s, e), w)
  {
    hide Inv, Enabled, Apply, WaiterInv;
    if MovesEntries(e) {
      EntryMoves(s, e, w);
    } else {
      WaiterMoves(s, e, w);
    }
  }

  predicate MovesEntries(e: Event) {
    e.Track? || e.Take? || e.Drop? || e.MarkUp? || e.MarkDown? || e.FailAll?
  }

  lemma EntryMoves(s: State, e: Event, w: Wid)
    requires Inv(s) && Enabled(s, e) && w in Apply(s, e).waiters && MovesEntries(e)
    ensures WaiterInv(Apply(s, e), w)
  {
    hide OneHolder;
    assert w in s.waiters && WaiterInv(s, w);
  }

  lemma WaiterMoves(s: State, e: Event, w: Wid)
    requires Inv(s) && Enabled(s, e) && w in Apply(s, e).waiters && !MovesEntries(e)
    ensures WaiterInv(Apply(s, e), w)
  {
    hide OneHolder, LockFree, Update, FailEntries;
    assert w in s.waiters ==> WaiterInv(s, w);
  }

  lemma StepKeepsInv(s: State, e: Event)
    requires Inv(s) && Enabled(s, e)
    ensures Inv(Apply(s, e))
  {
    EntriesStep(s, e);
    HolderStep(s, e);
    hide Enabled, Apply, WaiterInv, EntriesInv, OneHolder;
    forall w | w in Apply(s, e).waiters ensures WaiterInv(Apply(s, e), w) {
      WaiterStep(s, e, w);
    }
  }

  const Start := State(map[], false, Idle, map[], {}, {})

  /** The state after `events`, or `None` if one of them could not happen. */
  function Run(events: seq<Event>): Option<State>
    decreases |events|
  {
    if events == [] then Some(Start)
    else
      var n := |events| - 1;
      var before := Run(events[..n]);
      if before.Some? && Enabled(before.value, events[n]) then Some(Apply(before.value, events[n])) else None
  }

  lemma {:induction false} RunKeepsInv(events: seq<Event>)
    requires Run(events).Some?
    ensures Inv(Run(events).value)
    decreases |events|
  {
    if events != [] {
      var n := |events| - 1;
      RunKeepsInv(events[..n]);
      hide Inv, Enabled, Apply;
      StepKeepsInv(Run(events[..n]).value, events[n]);
    }
  }

  /** What the registry was told about `h`, as its own operations, in order. */
  function History(events: seq<Event>, h: Handle): seq<Op>
    decreases |events|
  {
    if events == [] then []
    else
      var n := |events| - 1;
      History(events[..n], h) + if OpOn(events[n], h).Some? then [OpOn(events[n], h).value] else []
  }

  /** In every run the entry is what the history of its handle makes of none. */
  lemma {:induction false} EntryIsItsHistory(events: seq<Event>, h: Handle)
    requires Run(events).Some?
    ensures EntryOf(Run(events).value, h) == ApplyOps(None, History(events, h))
    decreases |events|
  {
    if events == [] {
      assert History(events, h) == [];
    } else {
      hide Enabled, Apply, ApplyOps, ApplyOp, EntryOf, OpOn;
      var n := |events| - 1;
      EntryIsItsHistory(events[..n], h);
      EntryMoved(Run(events[..n]).value, events[n], h);
      Told(History(events[..n], h), events[n], h);
    }
  }

  /** The operation that `e` is on the entry of `h`, if it is one. */
  function OpOn(e: Event, h: Handle): Option<Op> {
    match e
    case Track(k) => if k == h then Some(SetPending) else None
    case Take(k) => if k == h then Some(TakeError) else None
    case Drop(k) => if k == h then Some(Forget) else None
    case MarkUp(k) => if k == h then Some(StatusConnected) else None
    case MarkDown(k, code) => if k == h then Some(ServerClose(code)) else None
    case FailAll => Some(TransportLost)
    case _ => None
  }

  lemma EntryMoved(s: State, e: Event, h: Handle)
    requires Enabled(s, e)
    ensures EntryOf(Apply(s, e), h) ==
            match OpOn(e, h)
            case Some(op) => ApplyOp(EntryOf(s, h), op)
            case None => EntryOf(s, h)
  {
    hide Woken, LockFree, Answer;
  }

  lemma Told(ops: seq<Op>, e: Event, h: Handle)
    ensures ApplyOps(None, ops + if OpOn(e, h).Some? then [OpOn(e, h).value] else []) ==
            match OpOn(e, h)
            case Some(op) => ApplyOp(ApplyOps(None, ops), op)
            case None => ApplyOps(None, ops)
  {
    hide ApplyOp, OpOn;
    match OpOn(e, h)
    case Some(op) =>
      OpsInTurn(None, ops, [op]);
      assert [op][1..] == [];
    case None =>
      assert ops + [] == ops;
  }

  // ---- What every run guarantees ---------------------------------------

  /**
   No lost wakeup: if a waiter sleeps while its entry is decided, the reader's
   next step is the notify that wakes it; and if the transport is closed, the
   reader has yet to pass its last notify.
   */
  lemma NoLostWakeup(events: seq<Event>, w: Wid)
    requires Run(events).Some?
    requires IsAt(Run(events).value, w, Asleep)
    ensures var s := Run(events).value;
            Terminal(EntryOf(s, s.waiters[w].h)) ==>
              var e := if s.reader.MustNotify? then Notify else NotifyAll;
              Enabled(s, e) && IsAt(Apply(s, e), w, Locking)
    ensures var s := Run(events).value;
            s.closed ==> s.reader.StoredClosed? || s.reader.ClearedPending? || s.reader.FailedAll?
  {
    RunKeepsInv(events);
    var s := Run(events).value;
    assert WaiterInv(s, w);
  }

  /** A getsockopt(SO_ERROR) in the run read a failure of `h`, and so cleared it. */
  predicate TookFailure(events: seq<Event>, h: Handle) {
    exists i | 0 <= i < |events| ::
      && events[i] == Take(h)
      && Run(events[..i]).Some? && TakenErrno(EntryOf(Run(events[..i]).value, h)) != 0
  }

  lemma TookFailureSnoc(events: seq<Event>, h: Handle)
    requires events != []
    requires TookFailure(events[..|events| - 1], h)
             || (events[|events| - 1] == Take(h) && Run(events[..|events| - 1]).Some?
                 && TakenErrno(EntryOf(Run(events[..|events| - 1]).value, h)) != 0)
    ensures TookFailure(events, h)
  {
    hide Run, TakenErrno, EntryOf;
    var n := |events| - 1;
    if TookFailure(events[..n], h) {
      var i :| 0 <= i < n && events[..n][i] == Take(h) && Run(events[..n][..i]).Some?
               && TakenErrno(EntryOf(Run(events[..n][..i]).value, h)) != 0;
      assert events[..n][..i] == events[..i] && events[i] == Take(h);
    }
  }

  lemma HistoryStep(s: State, e: Event, h: Handle)
    requires Enabled(s, e)
    ensures h in Apply(s, e).up ==> h in s.up || e == MarkUp(h)
    ensures h in Apply(s, e).taken ==> h in s.taken || (e == Take(h) && TakenErrno(EntryOf(s, h)) != 0)
  {
    hide Update, Woken, FailEntries, Answer, TakenErrno, EntryOf, LockFree;
  }

  lemma {:induction false} HistoryIsInTheRun(events: seq<Event>, h: Handle)
    requires Run(events).Some?
    ensures h in Run(events).value.up ==> MarkUp(h) in events
    ensures h in Run(events).value.taken ==> TookFailure(events, h)
    decreases |events|
  {
    if events != [] {
      hide Enabled, Apply, TookFailure, TakenErrno, EntryOf;
      var n := |events| - 1;
      HistoryIsInTheRun(events[..n], h);
      HistoryStep(Run(events[..n]).value, events[n], h);
      if h in Run(events).value.taken {
        TookFailureSnoc(events, h);
      }
      assert events == events[..n] + [events[n]];
    }
  }

  /**
   A wait succeeds only if a status(Connected) was dispatched for its handle or
   an SO_ERROR read had taken its failure.
   */
  lemma SuccessIsEarned(events: seq<Event>, w: Wid)
    requires Run(events).Some?
    requires IsAt(Run(events).value, w, Done(0))
    ensures var h := Run(events).value.waiters[w].h;
            MarkUp(h) in events || TookFailure(events, h)
  {
    RunKeepsInv(events);
    hide Run, TookFailure;
    assert WaiterInv(Run(events).value, w);
    HistoryIsInTheRun(events, Run(events).value.waiters[w].h);
  }

  /**
   What a look at the entry leads to, in every run: Ok exactly if the entry is
   Connected, the stored errno exactly if it is Failed; a first look otherwise goes on
   to the `closed` flag, the last one times out (ETIMEDOUT, 110).
   */
  lemma LookDecides(events: seq<Event>, w: Wid, e: Event)
    requires Run(events).Some? && Enabled(Run(events).value, e) && (e == ReadEntry(w) || e == LastLook(w))
    ensures var s := Run(events).value;
            var h := s.waiters[w].h;
            var a := Apply(s, e).waiters[w].at;
            && (a == Done(0) <==> h in s.entries && s.entries[h].Connected?)
            && (h in s.entries && s.entries[h].Failed? ==> a == Done(s.entries[h].errno))
            && (h !in s.entries || s.entries[h].Pending? ==> a == if e.ReadEntry? then Undecided else Done(110))
  {
    RunKeepsInv(events);
    hide Run, OneHolder, WaiterInv, Woken;
    var s := Run(events).value;
    assert EntriesInv(s);
    var h := s.waiters[w].h;
    assert h in s.entries ==> Honest(Some(s.entries[h]));
  }

  /** After an undecided look: ECONNRESET (104) exactly if the transport is closed, else to sleep. */
  lemma ClosedDecides(events: seq<Event>, w: Wid)
    requires Run(events).Some? && Enabled(Run(events).value, ReadClosed(w))
    ensures var s := Run(events).value;
            Apply(s, ReadClosed(w)).waiters[w].at == if s.closed then Done(104) else Parking
  {
    hide Run;
  }

  /** What a waiter that returned `r` saw in its last step. */
  predicate Answered(s: State, e: Event, w: Wid, r: int) {
    && Enabled(s, e) && w in s.waiters
    && var h := s.waiters[w].h;
       || ((e == ReadEntry(w) || e == LastLook(w)) && h in s.entries &&
             (if r == 0 then s.entries[h].Connected? else s.entries[h] == Failed(r)))
       || (e == LastLook(w) && (h !in s.entries || s.entries[h].Pending?) && r == ETIMEDOUT)
       || (e == ReadClosed(w) && s.closed && r == ECONNRESET)
  }

  lemma StepAnswers(s: State, e: Event, w: Wid, r: int)
    requires EntriesInv(s) && Enabled(s, e) && IsAt(Apply(s, e), w, Done(r)) && !IsAt(s, w, Done(r))
    ensures Answered(s, e, w, r)
  {
    hide Update, FailEntries, LockFree;
    assert w in s.waiters && s.waiters[w].h in s.entries ==> Honest(Some(s.entries[s.waiters[w].h]));
  }

  ghost predicate WasAnswered(events: seq<Event>, w: Wid, r: int) {
    exists i | 0 <= i < |events| :: Run(events[..i]).Some? && Answered(Run(events[..i]).value, events[i], w, r)
  }

  lemma WasAnsweredSnoc(events: seq<Event>, w: Wid, r: int)
    requires events != [] && Run(events[..|events| - 1]).Some?
    requires WasAnswered(events[..|events| - 1], w, r)
             || Answered(Run(events[..|events| - 1]).value, events[|events| - 1], w, r)
    ensures WasAnswered(events, w, r)
  {
    hide Run, Answered;
    var n := |events| - 1;
    if WasAnswered(events[..n], w, r) {
      var i :| 0 <= i < n && Run(events[..n][..i]).Some? && Answered(Run(events[..n][..i]).value, events[..n][i], w, r);
      assert events[..n][..i] == events[..i] && events[..n][i] == events[i];
    }
  }

  /** Every answer of a wait, in every run, is what it saw: a decided entry, a closed transport or a timeout. */
  lemma {:induction false} EveryAnswerWasSeen(events: seq<Event>, w: Wid, r: int)
    requires Run(events).Some? && IsAt(Run(events).value, w, Done(r))
    ensures WasAnswered(events, w, r)
    decreases |events|
  {
    if events != [] {
      var n := |events| - 1;
      var s, e := Run(events[..n]).value, events[n];
      assert Run(events).value == Apply(s, e) && Enabled(s, e);
      RunKeepsInv(events[..n]);
      assert EntriesInv(s);
      hide Run, Enabled, Apply, WasAnswered, Answered, EntriesInv, WaiterInv, OneHolder;
      if IsAt(s, w, Done(r)) {
        EveryAnswerWasSeen(events[..n], w, r);
      } else {
        StepAnswers(s, e, w, r);
      }
      WasAnsweredSnoc(events, w, r);
    }
  }

  lemma Follow(events: seq<Event>, e: Event) returns (next: seq<Event>)
    requires Run(events).Some? && Enabled(Run(events).value, e)
    ensures next == events + [e] && Run(next) == Some(Apply(Run(events).value, e))
  {
    next := events + [e];
    assert next[..|next| - 1] == events;
  }

  /** A wait that sleeps ends in success when a status arrives, by the reader's and its own steps alone. */
  lemma StatusEndsTheWait(events: seq<Event>, w: Wid) returns (next: seq<Event>)
    requires Run(events).Some? && IsAt(Run(events).value, w, Asleep)
    requires Run(events).value.reader.Idle? && LockFree(Run(events).value)
    ensures events <= next && Run(next).Some? && IsAt(Run(next).value, w, Done(0))
  {
    var h := Run(events).value.waiters[w].h;
    hide Run, Inv, WaiterInv;
    next := Follow(events, MarkUp(h));
    next := Follow(next, Notify);
    next := Follow(next, Lock(w));
    next := Follow(next, ReadEntry(w));
  }

  /** And in the close's errno when a close does, if the connect was pending. */
  lemma CloseEndsTheWait(events: seq<Event>, w: Wid, code: int) returns (next: seq<Event>)
    requires Run(events).Some? && IsAt(Run(events).value, w, Asleep)
    requires Run(events).value.reader.Idle? && LockFree(Run(events).value)
    requires EntryOf(Run(events).value, Run(events).value.waiters[w].h) == Some(Pending)
    ensures events <= next && Run(next).Some? && IsAt(Run(next).value, w, Done(CloseErrno(code)))
  {
    var h := Run(events).value.waiters[w].h;
    hide Run, Inv, WaiterInv, CloseErrno;
    next := Follow(events, MarkDown(h, code));
    next := Follow(next, Notify);
    next := Follow(next, Lock(w));
    next := Follow(next, ReadEntry(w));
  }

  /** Once the reader is gone every waiter is awake: each can run to its return. */
  lemma NobodySleepsAfterTheReader(events: seq<Event>, w: Wid)
    requires Run(events).Some? && Run(events).value.reader.Gone?
    requires w in Run(events).value.waiters
    ensures !Run(events).value.waiters[w].at.Asleep? && !Run(events).value.waiters[w].at.Parking?
  {
    RunKeepsInv(events);
    assert WaiterInv(Run(events).value, w);
  }
}
