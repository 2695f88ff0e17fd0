/**
 The receive side of the interposer as a transition system: application threads
 creating, connecting and closing fds, the RHP reader thread pushing bytes and
 closes, and the flusher thread draining backlogs, over a kernel that reuses
 descriptor numbers (crates/ax25-interpose/src/state.rs, lib.rs).

 Assumptions about the callers, as guards of the steps concerned: the engine never
 reuses a handle (`StoreHandle`, `StoreListener`); each fd is connected at most
 once; connect and close on one fd do not overlap (`Unlink`).
 */
module RecvSystem {
  import opened Bytes
  import opened RecvSpec

  type Pid = nat   // one socketpair, for ever

  /** What an open descriptor number stands for. */
  datatype File = AppEnd(pid: Pid) | InnerEnd(pid: Pid) | Foreign

  /** How far the owner of an fd has come, from socket() to the last close(). */
  datatype Stage =
    | Fresh       // in the fd map, no handle
    | HandleSet   // handle stored by connect() or accept(); not registered yet
    | Listening   // handle stored by listen(); never registered
    | Live        // registered with the receive pump
    | Unlinked    // destroy took it out of the fd map
    | Forgotten   // unregistered
    | InnerClosed
    | Closed

  datatype Pair = Pair(
    appFd: Fd, innerFd: Fd, handle: Option<Handle>, stage: Stage,
    delivered: seq<byte>,   // every byte written to the inner end
    shuts: nat              // times its write end was shut down
  )

  /** Everything pushed for a handle, before and after its registration. */
  datatype Ledger = Ledger(before: seq<byte>, after: seq<byte>)

  datatype Flusher = Parked | Notified | Awake

  datatype State = State(
    table: map<Fd, File>,
    pairs: map<Pid, Pair>,
    pump: PumpState,
    flusher: Flusher,
    owner: map<Handle, Pid>,        // which socketpair a handle was stored in
    // history
    ledgers: map<Handle, Ledger>,
    registered: set<Handle>,        // handles ever registered
    stray: bool                     // a write or shutdown reached anything but its own inner end
  )

  datatype Event =
    | Socket(pid: Pid, a: Fd, i: Fd) | OpenOther(fd: Fd) | CloseOther(fd: Fd)
    | StoreHandle(pid: Pid, h: Handle) | StoreListener(pid: Pid, h: Handle) | RegisterPair(pid: Pid)
    | Unlink(pid: Pid) | Forget(pid: Pid) | CloseInner(pid: Pid) | CloseApp(pid: Pid)
    | PushBytes(h: Handle, data: seq<byte>, o: WriteOutcome) | ServerEof(h: Handle) | TransportEof
    | FlushBytes(h: Handle, k: nat, o: WriteOutcome) | FlushEof(h: Handle)
    | Park | Wake

  function LedgerOf(s: State, h: Handle): Ledger {
    if h in s.ledgers then s.ledgers[h] else Ledger([], [])
  }

  /** What a handle's socketpair is owed: the first 256 KiB pushed before registration, all pushed after. */
  function Owed(l: Ledger): seq<byte> {
    Take(l.before, EARLY_STAGE_CAP) + l.after
  }

  predicate PairAt(s: State, pid: Pid, st: Stage) {
    pid in s.pairs && s.pairs[pid].stage == st
  }

  /** Whether `fd` is now the inner end of a socketpair whose write end is still open. */
  predicate Writable(s: State, fd: Fd) {
    && fd in s.table && s.table[fd].InnerEnd? && s.table[fd].pid in s.pairs
    && s.pairs[s.table[fd].pid].shuts == 0
  }

  /** The kernel refuses a write to a closed descriptor or past a SHUT_WR. */
  predicate KernelAllows(s: State, fd: Fd, data: seq<byte>, o: WriteOutcome) {
    Possible(o, data) && (fd !in s.table || (s.table[fd].InnerEnd? && !Writable(s, fd)) ==> o.Fatal?)
  }

  predicate Enabled(s: State, e: Event) {
    match e
    case Socket(pid, a, i) => pid !in s.pairs && a != i && a !in s.table && i !in s.table
    case OpenOther(fd) => fd !in s.table
    case CloseOther(fd) => fd in s.table && s.table[fd].Foreign?
    case StoreHandle(pid, h) => PairAt(s, pid, Fresh) && h !in s.owner
    case StoreListener(pid, h) => PairAt(s, pid, Fresh) && h !in s.owner
    case RegisterPair(pid) => PairAt(s, pid, HandleSet) && s.pairs[pid].handle.Some?
    case Unlink(pid) => PairAt(s, pid, Fresh) || PairAt(s, pid, Listening) || PairAt(s, pid, Live)
    case Forget(pid) => PairAt(s, pid, Unlinked)
    case CloseInner(pid) => PairAt(s, pid, Forgotten)
    case CloseApp(pid) => PairAt(s, pid, InnerClosed)
    case PushBytes(h, data, o) =>
      if PushWrites(s.pump, h, data) then KernelAllows(s, s.pump.handles[h].innerFd, data, o) else Possible(o, data)
    case ServerEof(h) => true
    case TransportEof => true
    case FlushBytes(h, k, o) =>
      && s.flusher.Awake? && h in s.pump.handles && 1 <= k <= |s.pump.handles[h].buf|
      && KernelAllows(s, s.pump.handles[h].innerFd, s.pump.handles[h].buf[..k], o)
    case FlushEof(h) => s.flusher.Awake? && EofDue(s.pump, h)
    case Park => s.flusher.Awake? && !HasWork(s.pump)
    case Wake => !s.flusher.Awake?   // notified, or a spurious wakeup
  }

  /** The effect of `bytes` arriving at descriptor number `fd`, meant for handle `h`. */
  function Deliver(s: State, h: Handle, fd: Fd, bytes: seq<byte>): State {
    if IsOwnInner(s, h, fd) then
      var pid := s.table[fd].pid;
      s.(pairs := s.pairs[pid := s.pairs[pid].(delivered := s.pairs[pid].delivered + bytes)])
    else s.(stray := true)
  }

  function ShutDown(s: State, h: Handle, fd: Fd): State {
    if IsOwnInner(s, h, fd) then
      var pid := s.table[fd].pid;
      s.(pairs := s.pairs[pid := s.pairs[pid].(shuts := s.pairs[pid].shuts + 1)])
    else s.(stray := true)
  }

  /** `fd` is open and is the inner end of the socketpair whose fd state carries `h`. */
  predicate IsOwnInner(s: State, h: Handle, fd: Fd) {
    && fd in s.table && s.table[fd].InnerEnd? && s.table[fd].pid in s.pairs
    && s.pairs[s.table[fd].pid].handle == Some(h)
  }

  function Nudge(f: Flusher, notify: bool): Flusher {
    if notify && f.Parked? then Notified else f
  }

  function Log(s: State, h: Handle, data: seq<byte>): map<Handle, Ledger> {
    var l := LedgerOf(s, h);
    s.ledgers[h := if h in s.registered then l.(after := l.after + data) else l.(before := l.before + data)]
  }

  function SetStage(s: State, pid: Pid, st: Stage): State
    requires pid in s.pairs
  {
    s.(pairs := s.pairs[pid := s.pairs[pid].(stage := st)])
  }

  function AfterPush(s: State, h: Handle, data: seq<byte>, o: WriteOutcome): State
    requires Possible(o, data)
  {
    var t := if PushWrites(s.pump, h, data)
             then Deliver(s, h, s.pump.handles[h].innerFd, Taken(o, data)) else s;
    t.(pump := Pushed(s.pump, h, data, o),
       flusher := Nudge(s.flusher, PushNotifies(s.pump, h, data, o)),
       ledgers := Log(s, h, data))
  }

  function Apply(s: State, e: Event): State
    requires Enabled(s, e)
  {
    match e
    case Socket(pid, a, i) =>
      s.(table := s.table[a := AppEnd(pid)][i := InnerEnd(pid)],
         pairs := s.pairs[pid := Pair(a, i, None, Fresh, [], 0)])
    case OpenOther(fd) => s.(table := s.table[fd := Foreign])
    case CloseOther(fd) => s.(table := s.table - {fd})
    case StoreHandle(pid, h) =>
      s.(pairs := s.pairs[pid := s.pairs[pid].(handle := Some(h), stage := HandleSet)],
         owner := s.owner[h := pid])
    case StoreListener(pid, h) =>
      s.(pairs := s.pairs[pid := s.pairs[pid].(handle := Some(h), stage := Listening)],
         owner := s.owner[h := pid])
    case RegisterPair(pid) =>
      var h := s.pairs[pid].handle.value;
      SetStage(s, pid, Live).(
        pump := Registered(s.pump, h, s.pairs[pid].innerFd),
        flusher := Nudge(s.flusher, Staged(s.pump, h) != []),
        registered := s.registered + {h})
    case Unlink(pid) => SetStage(s, pid, Unlinked)
    case Forget(pid) =>
      var p := s.pairs[pid];
      SetStage(s, pid, Forgotten).(
        pump := if p.handle.Some? then Unregistered(s.pump, p.handle.value) else s.pump)
    case CloseInner(pid) => SetStage(s, pid, InnerClosed).(table := s.table - {s.pairs[pid].innerFd})
    case CloseApp(pid) => SetStage(s, pid, Closed).(table := s.table - {s.pairs[pid].appFd})
    case PushBytes(h, data, o) => AfterPush(s, h, data, o)
    case ServerEof(h) =>
      s.(pump := EofMarked(s.pump, h), flusher := Nudge(s.flusher, h in s.pump.handles))
    case TransportEof => s.(pump := AllEof(s.pump), flusher := Nudge(s.flusher, true))
    case FlushBytes(h, k, o) =>
      Deliver(s, h, s.pump.handles[h].innerFd, Taken(o, s.pump.handles[h].buf[..k])).(
        pump := BacklogWritten(s.pump, h, k, o))
    case FlushEof(h) => ShutDown(s, h, s.pump.handles[h].innerFd).(pump := EofSent(s.pump, h))
    case Park => s.(flusher := Parked)
    case Wake => s.(flusher := if HasWork(s.pump) then Awake else Parked)
  }

  // ---- Invariants ------------------------------------------------------

  predicate InnerOpen(st: Stage) {
    !st.InnerClosed? && !st.Closed?
  }

  /** A socketpair's ends are open until their own close; it carries at most one handle, for good. */
  predicate PairInv(s: State, pid: Pid)
    requires pid in s.pairs
  {
    var p := s.pairs[pid];
    && (InnerOpen(p.stage) ==> p.innerFd in s.table && s.table[p.innerFd] == InnerEnd(pid))
    && (!p.stage.Closed? ==> p.appFd in s.table && s.table[p.appFd] == AppEnd(pid))
    && (p.handle.Some? ==> p.handle.value in s.owner && s.owner[p.handle.value] == pid)
    && (p.stage.Fresh? ==> p.handle.None?)
    && (p.handle.None? || p.handle.value !in s.registered ==> p.delivered == [] && p.shuts == 0)
    && p.shuts <= 1
  }

  /** A live entry points at the open inner end of the socketpair that carries its handle. */
  predicate HandleInv(s: State, h: Handle) {
    && (h in s.owner ==> s.owner[h] in s.pairs && s.pairs[s.owner[h]].handle == Some(h))
    && (h in s.registered ==> h in s.owner && !s.pairs[s.owner[h]].stage.HandleSet?)
    && (h in s.pump.handles ==>
          && h in s.registered
          && var p := s.pairs[s.owner[h]];
             (p.stage.Live? || p.stage.Unlinked?) && p.innerFd == s.pump.handles[h].innerFd)
  }

  /** What has become of the bytes pushed for `h`. */
  predicate DeliveryInv(s: State, h: Handle)
    requires HandleInv(s, h)
  {
    var l := LedgerOf(s, h);
    if h !in s.registered then
      && l.after == []
      && (h !in s.owner || s.pairs[s.owner[h]].stage.HandleSet? ==>
            Staged(s.pump, h) == Take(l.before, EARLY_STAGE_CAP))
    else
      var p := s.pairs[s.owner[h]];
      && p.delivered <= Owed(l)
      && (h in s.pump.handles ==>
            var e := s.pump.handles[h];
            && p.delivered + e.buf == Owed(l)
            && (e.eofDone <==> p.shuts == 1)
            && (e.eofDone ==> e.eof && e.buf == []))
  }

  predicate GoodFor(s: State, h: Handle) {
    HandleInv(s, h) && DeliveryInv(s, h)
  }

  predicate FlusherInv(s: State) {
    s.flusher.Parked? ==> !HasWork(s.pump)
  }

  ghost predicate PairsInv(s: State) {
    forall pid | pid in s.pairs :: PairInv(s, pid)
  }

  ghost predicate Inv(s: State) {
    && !s.stray
    && FlusherInv(s)
    && PairsInv(s)
    && (forall h :: GoodFor(s, h))
  }

  /** A live entry's descriptor is its own inner end: nothing strays. */
  lemma LiveEntryIsOwn(s: State, h: Handle)
    requires PairsInv(s) && HandleInv(s, h) && h in s.pump.handles
    ensures IsOwnInner(s, h, s.pump.handles[h].innerFd)
    ensures s.table[s.pump.handles[h].innerFd] == InnerEnd(s.owner[h])
    ensures h in s.registered && s.pairs[s.owner[h]].handle == Some(h)
  {
    assert PairInv(s, s.owner[h]);
  }

  /** Distinct handles live in distinct socketpairs. */
  lemma OwnersDiffer(s: State, g: Handle, h: Handle)
    requires HandleInv(s, g) && HandleInv(s, h) && g in s.owner && h in s.owner && g != h
    ensures s.owner[g] != s.owner[h]
  {
  }

  lemma EofIsFirst(s: State, h: Handle)
    requires PairsInv(s) && GoodFor(s, h) && EofDue(s.pump, h)
    ensures h in s.owner && s.owner[h] in s.pairs
    ensures s.pairs[s.owner[h]].shuts == 0
    ensures s.pairs[s.owner[h]].delivered == Owed(LedgerOf(s, h))
  {
    LiveEntryIsOwn(s, h);
    assert PairInv(s, s.owner[h]);
  }

  // ---- Each step keeps the invariant -----------------------------------

  /** Steps that touch neither the pump nor any handle: only stages and descriptors change. */
  predicate MovesFds(e: Event) {
    || e.Socket? || e.OpenOther? || e.CloseOther? || e.Unlink? || e.CloseInner? || e.CloseApp?
    || e.Park? || e.Wake?
  }

  lemma FdStepKeeps(s: State, e: Event, g: Handle)
    requires GoodFor(s, g) && Enabled(s, e) && MovesFds(e)
    ensures GoodFor(Apply(s, e), g)
  {
    hide HasWork, Owed, Take;
  }

  lemma StoreKeeps(s: State, pid: Pid, h: Handle, e: Event, g: Handle)
    requires PairsInv(s) && GoodFor(s, g) && Enabled(s, e)
    requires e == StoreHandle(pid, h) || e == StoreListener(pid, h)
    ensures GoodFor(Apply(s, e), g)
  {
    hide HasWork, Owed, Take;
    assert PairInv(s, pid);
  }

  lemma RegisterKeeps(s: State, pid: Pid, g: Handle)
    requires PairsInv(s) && GoodFor(s, g) && Enabled(s, RegisterPair(pid))
    ensures GoodFor(Apply(s, RegisterPair(pid)), g)
  {
    hide HasWork, Take;
    assert PairInv(s, pid);
  }

  lemma ForgetKeeps(s: State, pid: Pid, g: Handle)
    requires PairsInv(s) && GoodFor(s, g) && Enabled(s, Forget(pid))
    ensures GoodFor(Apply(s, Forget(pid)), g)
  {
    hide HasWork, Owed, Take;
    assert PairInv(s, pid);
  }

  lemma EofNoteKeeps(s: State, e: Event, g: Handle)
    requires GoodFor(s, g) && Enabled(s, e) && (e.ServerEof? || e.TransportEof?)
    ensures GoodFor(Apply(s, e), g)
  {
    hide HasWork, Owed, Take;
  }

  /** A push before registration: the first 256 KiB of all such bytes are staged. */
  lemma PushStages(s: State, h: Handle, data: seq<byte>, o: WriteOutcome)
    requires GoodFor(s, h) && Enabled(s, PushBytes(h, data, o)) && h !in s.registered
    ensures GoodFor(Apply(s, PushBytes(h, data, o)), h)
  {
    hide HasWork, PushNotifies, Take, KernelAllows;
    var l := LedgerOf(s, h);
    TakeMore(l.before, data, EARLY_STAGE_CAP);
    TakeFits(l.before);
    if data == [] {
      assert l.before + data == l.before;
    }
  }

  lemma TakeFits(b: seq<byte>)
    ensures |Take(b, EARLY_STAGE_CAP)| <= EARLY_STAGE_CAP
  {
  }

  lemma OwedGrows(l: Ledger, data: seq<byte>)
    ensures Owed(l.(after := l.after + data)) == Owed(l) + data
  {
  }

  lemma WriteFits(d: seq<byte>, data: seq<byte>, o: WriteOutcome)
    requires Possible(o, data)
    ensures o.Wrote? ==> d + Taken(o, data) + data[o.n..] == d + data
    ensures d + Taken(o, data) <= d + data
  {
  }

  /** A push to an entry without backlog: the kernel takes a front of it, the backlog keeps the rest. */
  lemma PushDelivers(s: State, h: Handle, data: seq<byte>, o: WriteOutcome)
    requires PairsInv(s) && GoodFor(s, h) && Enabled(s, PushBytes(h, data, o))
    requires PushWrites(s.pump, h, data)
    ensures GoodFor(Apply(s, PushBytes(h, data, o)), h)
  {
    hide HasWork, PushNotifies, Owed;
    LiveEntryIsOwn(s, h);
    OwedGrows(LedgerOf(s, h), data);
    var d := s.pairs[s.owner[h]].delivered;
    assert d + [] == d;
    WriteFits(d, data, o);
    hide Taken;
  }

  /** A push to a registered handle that cannot be tried at once: behind the backlog, or too late. */
  lemma PushWaits(s: State, h: Handle, data: seq<byte>, o: WriteOutcome)
    requires GoodFor(s, h) && Enabled(s, PushBytes(h, data, o))
    requires h in s.registered && !PushWrites(s.pump, h, data)
    ensures GoodFor(Apply(s, PushBytes(h, data, o)), h)
  {
    hide HasWork, PushNotifies, Owed, Taken, KernelAllows;
    OwedGrows(LedgerOf(s, h), data);
    var d := s.pairs[s.owner[h]].delivered;
    assert d <= Owed(LedgerOf(s, h)) + data;
    if h in s.pump.handles {
      assert d + (s.pump.handles[h].buf + data) == (d + s.pump.handles[h].buf) + data;
    }
  }

  /** A push leaves every other handle's bytes alone. */
  lemma PushSpares(s: State, h: Handle, data: seq<byte>, o: WriteOutcome, g: Handle)
    requires PairsInv(s) && GoodFor(s, g) && GoodFor(s, h) && Enabled(s, PushBytes(h, data, o)) && g != h
    ensures GoodFor(Apply(s, PushBytes(h, data, o)), g)
  {
    if PushWrites(s.pump, h, data) {
      PushSparesWriting(s, h, data, o, g);
    } else {
      hide HasWork, PushNotifies, Owed, KernelAllows, Take, Room, Taken, PairsInv;
    }
  }

  lemma PushSparesWriting(s: State, h: Handle, data: seq<byte>, o: WriteOutcome, g: Handle)
    requires PairsInv(s) && GoodFor(s, g) && GoodFor(s, h) && Enabled(s, PushBytes(h, data, o)) && g != h
    requires PushWrites(s.pump, h, data)
    ensures GoodFor(Apply(s, PushBytes(h, data, o)), g)
  {
    hide HasWork, PushNotifies, Owed, KernelAllows, Take, Room, Taken, PairsInv;
    LiveEntryIsOwn(s, h);
    if g in s.owner {
      OwnersDiffer(s, g, h);
    }
  }

  lemma FlushDelivers(s: State, h: Handle, k: nat, o: WriteOutcome)
    requires PairsInv(s) && GoodFor(s, h) && Enabled(s, FlushBytes(h, k, o))
    ensures GoodFor(Apply(s, FlushBytes(h, k, o)), h)
  {
    hide HasWork, PushNotifies, Owed;
    LiveEntryIsOwn(s, h);
    var d, b := s.pairs[s.owner[h]].delivered, s.pump.handles[h].buf;
    assert d + Taken(o, b[..k]) <= d + b;
    assert o.Wrote? ==> d + Taken(o, b[..k]) + b[o.n..] == d + b;
  }

  lemma FlushSpares(s: State, h: Handle, k: nat, o: WriteOutcome, g: Handle)
    requires PairsInv(s) && GoodFor(s, g) && GoodFor(s, h) && Enabled(s, FlushBytes(h, k, o)) && g != h
    ensures GoodFor(Apply(s, FlushBytes(h, k, o)), g)
  {
    hide HasWork, PushNotifies, Owed, Taken;
    LiveEntryIsOwn(s, h);
    if g in s.owner {
      OwnersDiffer(s, g, h);
    }
  }

  lemma FlushEofKeeps(s: State, h: Handle, g: Handle)
    requires PairsInv(s) && GoodFor(s, g) && GoodFor(s, h) && Enabled(s, FlushEof(h))
    ensures GoodFor(Apply(s, FlushEof(h)), g)
  {
    hide HasWork, PushNotifies, Owed;
    LiveEntryIsOwn(s, h);
    EofIsFirst(s, h);
    if g != h && g in s.owner {
      OwnersDiffer(s, g, h);
    }
  }

  lemma HandleStep(s: State, e: Event, g: Handle)
    requires Inv(s) && Enabled(s, e)
    ensures GoodFor(Apply(s, e), g)
  {
    hide Apply, GoodFor, PairsInv, FlusherInv, PushWrites, KernelAllows, EofDue, HasWork;
    assert GoodFor(s, g);
    match e
    case StoreHandle(pid, h) => StoreKeeps(s, pid, h, e, g);
    case StoreListener(pid, h) => StoreKeeps(s, pid, h, e, g);
    case RegisterPair(pid) => RegisterKeeps(s, pid, g);
    case Forget(pid) => ForgetKeeps(s, pid, g);
    case ServerEof(h) => EofNoteKeeps(s, e, g);
    case TransportEof => EofNoteKeeps(s, e, g);
    case PushBytes(h, data, o) =>
      assert GoodFor(s, h);
      if g != h {
        PushSpares(s, h, data, o, g);
      } else if PushWrites(s.pump, h, data) {
        PushDelivers(s, h, data, o);
      } else if h in s.registered {
        PushWaits(s, h, data, o);
      } else {
        PushStages(s, h, data, o);
      }
    case FlushBytes(h, k, o) =>
      assert GoodFor(s, h);
      if g == h {
        FlushDelivers(s, h, k, o);
      } else {
        FlushSpares(s, h, k, o, g);
      }
    case FlushEof(h) =>
      assert GoodFor(s, h);
      FlushEofKeeps(s, h, g);
    case _ => FdStepKeeps(s, e, g);
  }

  predicate MovesBytes(e: Event) {
    e.PushBytes? || e.FlushBytes? || e.FlushEof?
  }

  lemma PairStays(s: State, e: Event, pid: Pid)
    requires Enabled(s, e) && pid in Apply(s, e).pairs && !MovesBytes(e)
    requires pid in s.pairs ==> PairInv(s, pid)
    requires e.CloseInner? || e.CloseApp? ==> e.pid in s.pairs && PairInv(s, e.pid)
    ensures PairInv(Apply(s, e), pid)
  {
    hide HasWork, Registered, Unregistered, AllEof, EofMarked, KernelAllows, PushWrites, EofDue, EofSent,
         BacklogWritten, AfterPush, Deliver, ShutDown, Staged, Nudge;
  }

  lemma DeliverKeepsPair(s: State, h: Handle, fd: Fd, bytes: seq<byte>, pid: Pid)
    requires pid in s.pairs && PairInv(s, pid) && IsOwnInner(s, h, fd) && h in s.registered
    ensures pid in Deliver(s, h, fd, bytes).pairs && PairInv(Deliver(s, h, fd, bytes), pid)
  {
  }

  lemma ShutKeepsPair(s: State, h: Handle, fd: Fd, pid: Pid)
    requires pid in s.pairs && PairInv(s, pid) && IsOwnInner(s, h, fd) && h in s.registered
    requires s.pairs[s.table[fd].pid].shuts == 0
    ensures pid in ShutDown(s, h, fd).pairs && PairInv(ShutDown(s, h, fd), pid)
  {
  }

  lemma SamePair(s: State, t: State, pid: Pid)
    requires pid in s.pairs && PairInv(s, pid)
    requires t.pairs == s.pairs && t.table == s.table && t.owner == s.owner && t.registered == s.registered
    ensures PairInv(t, pid)
  {
  }

  lemma PairMoves(s: State, e: Event, pid: Pid, h: Handle)
    requires PairsInv(s) && GoodFor(s, h) && Enabled(s, e) && pid in s.pairs && MovesBytes(e) && e.h == h
    ensures pid in Apply(s, e).pairs && PairInv(Apply(s, e), pid)
  {
    if h in s.pump.handles {
      LiveEntryIsOwn(s, h);
    }
    if e.FlushEof? {
      EofIsFirst(s, h);
    }
    assert PairInv(s, pid);
    hide PairsInv, PairInv, GoodFor, KernelAllows, HasWork, PushNotifies, Pushed, BacklogWritten, EofSent,
         Deliver, ShutDown, IsOwnInner, Log;
    var t := s;
    match e {
      case PushBytes(_, data, o) =>
        if PushWrites(s.pump, h, data) {
          DeliverKeepsPair(s, h, s.pump.handles[h].innerFd, Taken(o, data), pid);
          t := Deliver(s, h, s.pump.handles[h].innerFd, Taken(o, data));
        }
      case FlushBytes(_, k, o) =>
        DeliverKeepsPair(s, h, s.pump.handles[h].innerFd, Taken(o, s.pump.handles[h].buf[..k]), pid);
        t := Deliver(s, h, s.pump.handles[h].innerFd, Taken(o, s.pump.handles[h].buf[..k]));
      case FlushEof(_) =>
        ShutKeepsPair(s, h, s.pump.handles[h].innerFd, pid);
        t := ShutDown(s, h, s.pump.handles[h].innerFd);
    }
    SamePair(t, Apply(s, e), pid);
  }

  /** Moving bytes makes no socketpair. */
  lemma NoNewPair(s: State, e: Event, pid: Pid)
    requires Enabled(s, e) && MovesBytes(e)
    ensures pid in Apply(s, e).pairs ==> pid in s.pairs
  {
    hide KernelAllows, HasWork, PushNotifies, Pushed, BacklogWritten, EofSent, Taken, EofDue, Log;
  }

  lemma ClosesAPair(s: State, e: Event)
    requires PairsInv(s) && Enabled(s, e) && (e.CloseInner? || e.CloseApp?)
    ensures e.pid in s.pairs && PairInv(s, e.pid)
  {
  }

  lemma PairStep(s: State, e: Event)
    requires Inv(s) && Enabled(s, e)
    ensures PairsInv(Apply(s, e))
  {
    hide Enabled, Apply, GoodFor, PairInv, FlusherInv;
    forall pid | pid in Apply(s, e).pairs ensures PairInv(Apply(s, e), pid) {
      if MovesBytes(e) {
        assert GoodFor(s, e.h);
        NoNewPair(s, e, pid);
        PairMoves(s, e, pid, e.h);
      } else {
        assert pid in s.pairs ==> PairInv(s, pid);
        if e.CloseInner? || e.CloseApp? {
          ClosesAPair(s, e);
        }
        PairStays(s, e, pid);
      }
    }
  }

  lemma FlusherStep(s: State, e: Event)
    requires FlusherInv(s) && Enabled(s, e)
    ensures FlusherInv(Apply(s, e))
  {
  }

  lemma StrayStep(s: State, e: Event)
    requires Inv(s) && Enabled(s, e)
    ensures !Apply(s, e).stray
  {
    hide PairsInv, DeliveryInv, FlusherInv, KernelAllows, HasWork, PushNotifies,
         Registered, Unregistered, Pushed, BacklogWritten, EofSent, AllEof, EofMarked;
    if MovesBytes(e) {
      assert GoodFor(s, e.h);
      if e.h in s.pump.handles {
        LiveEntryIsOwn(s, e.h);
      }
    }
  }

  lemma StepKeepsInv(s: State, e: Event)
    requires Inv(s) && Enabled(s, e)
    ensures Inv(Apply(s, e))
  {
    StrayStep(s, e);
    FlusherStep(s, e);
    PairStep(s, e);
    hide Enabled, Apply, GoodFor, PairsInv, FlusherInv;
    forall g ensures GoodFor(Apply(s, e), g) {
      HandleStep(s, e, g);
    }
  }

  // ---- What every run guarantees ---------------------------------------

  const Start := State(map[], map[], PumpState(map[], map[]), Parked, map[], map[], {}, false)

  /** The state after `events`, or `None` if one of them could not happen. */
  function Run(events: seq<Event>): Option<State>
    decreases |events|
  {
    if events == [] then Some(Start)
    else
      var n := |events| - 1;
      var before := Run(events[..n]);
      if before.Some? && Enabled(before.value, events[n]) then Some(Apply(before.value, events[n])) else None
  }

  lemma {:induction false} RunKeepsInv(events: seq<Event>)
    requires Run(events).Some?
    ensures Inv(Run(events).value)
    decreases |events|
  {
    if events != [] {
      var n := |events| - 1;
      RunKeepsInv(events[..n]);
      hide Inv, Enabled, Apply;
      StepKeepsInv(Run(events[..n]).value, events[n]);
    }
  }

  /** Everything that `events` push for `h`, in order. */
  function AllPushed(events: seq<Event>, h: Handle): seq<byte>
    decreases |events|
  {
    if events == [] then []
    else
      var n := |events| - 1;
      var e := events[n];
      AllPushed(events[..n], h) + if e.PushBytes? && e.h == h then e.data else []
  }

  /** The ledger is the pushes: those before the registration, then those after. */
  lemma {:induction false} LedgerIsThePushes(events: seq<Event>, h: Handle)
    requires Run(events).Some?
    ensures var l := LedgerOf(Run(events).value, h); l.before + l.after == AllPushed(events, h)
    ensures h !in Run(events).value.registered ==> LedgerOf(Run(events).value, h).after == []
    decreases |events|
  {
    if events != [] {
      var n := |events| - 1;
      var s, e := Run(events[..n]).value, events[n];
      assert Run(events).value == Apply(s, e);
      hide Run, Enabled, Apply, LedgerOf;
      LedgerIsThePushes(events[..n], h);
      LedgerStep(s, e, h);
      if e.PushBytes? {
        Regroup(LedgerOf(s, h), e.data);
      }
    }
  }

  lemma Regroup(l: Ledger, data: seq<byte>)
    ensures l.before + (l.after + data) == l.before + l.after + data
    ensures l.after == [] ==> (l.before + data) + l.after == l.before + l.after + data
  {
  }

  lemma LedgerStep(s: State, e: Event, h: Handle)
    requires Enabled(s, e)
    ensures var l := LedgerOf(s, h);
            LedgerOf(Apply(s, e), h) ==
            if e.PushBytes? && e.h == h then
              if h in s.registered then l.(after := l.after + e.data) else l.(before := l.before + e.data)
            else l
    ensures Apply(s, e).registered ==
            s.registered + if e.RegisterPair? then {s.pairs[e.pid].handle.value} else {}
  {
    hide KernelAllows, HasWork, PushNotifies, Registered, Unregistered, Pushed, BacklogWritten, EofSent, AllEof,
         EofMarked, Taken, EofDue, Nudge;
  }

  /**
   Receive conservation: for a live handle, the bytes written to its socketpair
   followed by its backlog are the first 256 KiB pushed before its registration
   followed by all bytes pushed since, whatever the kernel answered.
   */
  lemma BytesAreConserved(events: seq<Event>, h: Handle)
    requires Run(events).Some? && h in Run(events).value.pump.handles
    ensures var s := Run(events).value;
            && h in s.owner && s.owner[h] in s.pairs
            && s.pairs[s.owner[h]].delivered + s.pump.handles[h].buf == Owed(LedgerOf(s, h))
    ensures var l := LedgerOf(Run(events).value, h);
            Owed(l) == (if |l.before| <= 262144 then l.before else l.before[..262144]) + l.after
  {
    RunKeepsInv(events);
    assert GoodFor(Run(events).value, h);
  }

  /** Whatever became of a registered handle, its socketpair got a prefix of what it was owed. */
  lemma DeliveryIsAPrefix(events: seq<Event>, h: Handle)
    requires Run(events).Some? && h in Run(events).value.registered
    ensures var s := Run(events).value;
            && h in s.owner && s.owner[h] in s.pairs
            && s.pairs[s.owner[h]].delivered <= Owed(LedgerOf(s, h))
  {
    RunKeepsInv(events);
    assert GoodFor(Run(events).value, h);
  }

  /**
   No stale fd: no write or shutdown ever reached a closed or reused descriptor,
   and every live entry's inner fd is at this moment the open inner end of the
   socketpair whose fd state carries that handle.
   */
  lemma NothingStrays(events: seq<Event>)
    requires Run(events).Some?
    ensures !Run(events).value.stray
    ensures forall h | h in Run(events).value.pump.handles ::
              IsOwnInner(Run(events).value, h, Run(events).value.pump.handles[h].innerFd)
  {
    RunKeepsInv(events);
    var s := Run(events).value;
    forall h | h in s.pump.handles ensures IsOwnInner(s, h, s.pump.handles[h].innerFd) {
      assert GoodFor(s, h);
      LiveEntryIsOwn(s, h);
    }
  }

  /** EOF comes once, and only behind every byte pushed before it. */
  lemma EofFollowsEverything(events: seq<Event>, h: Handle)
    requires Run(events).Some? && Enabled(Run(events).value, FlushEof(h))
    ensures var s := Run(events).value;
            && h in s.owner && s.owner[h] in s.pairs
            && s.pairs[s.owner[h]].delivered == Owed(LedgerOf(s, h))
            && s.pairs[s.owner[h]].shuts == 0
  {
    RunKeepsInv(events);
    assert GoodFor(Run(events).value, h);
    EofIsFirst(Run(events).value, h);
  }

  /** An EOF that is due can go out: awake, the flusher shuts the socketpair down, for the first time. */
  lemma EofGoesOut(events: seq<Event>, h: Handle)
    requires Run(events).Some? && Run(events).value.flusher.Awake? && h in Run(events).value.pump.handles
    requires var e := Run(events).value.pump.handles[h]; e.buf == [] && e.eof && !e.eofDone
    ensures var s := Run(events).value;
            && Enabled(s, FlushEof(h)) && h in s.owner && s.owner[h] in s.pairs
            && var t := Apply(s, FlushEof(h));
               && h in t.pump.handles && t.pump.handles[h].eofDone
               && s.owner[h] in t.pairs && t.pairs[s.owner[h]].shuts == 1
  {
    RunKeepsInv(events);
    var s := Run(events).value;
    hide Run;
    EofPasses(s, h);
    assert GoodFor(s, h);
    EofIsFirst(s, h);
  }

  lemma EofComesAtMostOnce(events: seq<Event>, pid: Pid)
    requires Run(events).Some? && pid in Run(events).value.pairs
    ensures Run(events).value.pairs[pid].shuts <= 1
  {
    RunKeepsInv(events);
    assert PairInv(Run(events).value, pid);
  }

  /** Past its EOF the kernel lets nothing into a socketpair. */
  lemma WriteAfterEof(s: State, h: Handle, fd: Fd, data: seq<byte>, o: WriteOutcome, pid: Pid)
    requires KernelAllows(s, fd, data, o) && pid in s.pairs && s.pairs[pid].shuts == 1
    ensures pid in Deliver(s, h, fd, Taken(o, data)).pairs
    ensures Deliver(s, h, fd, Taken(o, data)).pairs[pid] == s.pairs[pid]
  {
    assert s.pairs[pid].delivered + [] == s.pairs[pid].delivered;
  }

  lemma ShutAgain(s: State, h: Handle, fd: Fd, pid: Pid)
    requires pid in s.pairs
    ensures pid in ShutDown(s, h, fd).pairs
    ensures ShutDown(s, h, fd).pairs[pid].delivered == s.pairs[pid].delivered
    ensures ShutDown(s, h, fd).pairs[pid].shuts >= s.pairs[pid].shuts
  {
  }

  lemma StepAfterEof(s: State, e: Event, pid: Pid)
    requires Enabled(s, e) && pid in s.pairs && s.pairs[pid].shuts == 1
    ensures pid in Apply(s, e).pairs && Apply(s, e).pairs[pid].delivered == s.pairs[pid].delivered
    ensures Apply(s, e).pairs[pid].shuts >= 1
  {
    hide HasWork, Registered, Unregistered, AllEof, EofMarked, Pushed, BacklogWritten, EofSent, PushNotifies,
         Deliver, ShutDown, KernelAllows, Taken, Log, LedgerOf;
    match e {
      case PushBytes(h, data, o) =>
        if PushWrites(s.pump, h, data) {
          WriteAfterEof(s, h, s.pump.handles[h].innerFd, data, o, pid);
        }
      case FlushBytes(h, k, o) =>
        WriteAfterEof(s, h, s.pump.handles[h].innerFd, s.pump.handles[h].buf[..k], o, pid);
      case FlushEof(h) => ShutAgain(s, h, s.pump.handles[h].innerFd, pid);
      case _ =>
    }
  }

  /** In every run, nothing is delivered to a socketpair after its EOF. */
  lemma {:induction false} NothingFollowsEof(events: seq<Event>, n: nat, pid: Pid)
    requires n <= |events| && Run(events).Some? && Run(events[..n]).Some?
    requires pid in Run(events[..n]).value.pairs && Run(events[..n]).value.pairs[pid].shuts == 1
    ensures pid in Run(events).value.pairs
    ensures Run(events).value.pairs[pid].delivered == Run(events[..n]).value.pairs[pid].delivered
    ensures Run(events).value.pairs[pid].shuts == 1
    decreases |events|
  {
    if n == |events| {
      assert events[..n] == events;
    } else {
      hide Inv, Enabled, Apply;
      var m := |events| - 1;
      assert events[..m][..n] == events[..n];
      NothingFollowsEof(events[..m], n, pid);
      RunKeepsInv(events[..m]);
      StepAfterEof(Run(events[..m]).value, events[m], pid);
      EofComesAtMostOnce(events, pid);
    }
  }

  /** What the pump does with bytes pushed after its EOF: the kernel refuses them and the handle is dropped. */
  lemma PushAfterEofDropsTheHandle(events: seq<Event>, h: Handle, data: seq<byte>, o: WriteOutcome)
    requires Run(events).Some? && Enabled(Run(events).value, PushBytes(h, data, o)) && data != []
    requires h in Run(events).value.pump.handles && Run(events).value.pump.handles[h].eofDone
    ensures o.Fatal? && h !in Apply(Run(events).value, PushBytes(h, data, o)).pump.handles
  {
    RunKeepsInv(events);
    var s := Run(events).value;
    hide Run;
    assert GoodFor(s, h);
    LiveEntryIsOwn(s, h);
  }

  /** Live entries have inner fds of their own, so every pass of the flusher meets its precondition. */
  lemma LiveFdsAreDistinct(events: seq<Event>)
    requires Run(events).Some?
    ensures Distinct(Run(events).value.pump.handles)
  {
    RunKeepsInv(events);
    var s := Run(events).value;
    hide Run;
    forall g, h | g in s.pump.handles && h in s.pump.handles && g != h
      ensures s.pump.handles[g].innerFd != s.pump.handles[h].innerFd
    {
      assert GoodFor(s, g) && GoodFor(s, h);
      LiveEntryIsOwn(s, g);
      LiveEntryIsOwn(s, h);
      OwnersDiffer(s, g, h);
    }
  }

  // ---- Who leaves the pump ---------------------------------------------

  /** `e` takes `h` out of the pump: its fd is torn down, or a write to it is fatal. */
  predicate Removes(s: State, e: Event, h: Handle) {
    || (e.Forget? && e.pid in s.pairs && s.pairs[e.pid].handle == Some(h))
    || ((e.PushBytes? || e.FlushBytes?) && e.h == h && e.o.Fatal?)
  }

  lemma PushKeepsHandle(s: State, k: Handle, data: seq<byte>, o: WriteOutcome, h: Handle)
    requires Enabled(s, PushBytes(k, data, o)) && h in s.pump.handles && !(k == h && o.Fatal?)
    ensures h in Apply(s, PushBytes(k, data, o)).pump.handles
  {
    hide Log, Nudge, Deliver, PushNotifies, Staged, Take, Room, Taken;
  }

  lemma FlushKeepsHandle(s: State, k: Handle, n: nat, o: WriteOutcome, h: Handle)
    requires Enabled(s, FlushBytes(k, n, o)) && h in s.pump.handles && !(k == h && o.Fatal?)
    ensures h in Apply(s, FlushBytes(k, n, o)).pump.handles
  {
    hide Deliver, Taken;
  }

  lemma EntryKeepsHandle(s: State, e: Event, h: Handle)
    requires Enabled(s, e) && TouchesEntries(e) && h in s.pump.handles && !Removes(s, e, h)
    ensures h in Apply(s, e).pump.handles
  {
    hide HasWork, ShutDown, Nudge, Staged;
  }

  /** A step that does not remove a live handle keeps it; only its own registration makes one live. */
  lemma HandleStays(s: State, e: Event, h: Handle)
    requires Enabled(s, e) && h in s.pump.handles && !Removes(s, e, h)
    ensures h in Apply(s, e).pump.handles
  {
    hide Enabled, Apply;
    if e.PushBytes? {
      PushKeepsHandle(s, e.h, e.data, e.o, h);
    } else if e.FlushBytes? {
      FlushKeepsHandle(s, e.h, e.k, e.o, h);
    } else if TouchesEntries(e) {
      EntryKeepsHandle(s, e, h);
    } else if MovesFds(e) {
      PumpIsLeft(s, e);
    } else {
      StoreLeavesPump(s, e);
    }
  }

  lemma RegisteringMakesLive(s: State, e: Event, h: Handle)
    requires Enabled(s, e) && h !in s.registered && h in Apply(s, e).registered
    ensures h in Apply(s, e).pump.handles
  {
    LedgerStep(s, e, h);
    hide HasWork, Nudge, Staged, KernelAllows, Deliver, ShutDown, Log;
  }

  ghost predicate Removed(events: seq<Event>, h: Handle) {
    exists i | 0 <= i < |events| :: Run(events[..i]).Some? && Removes(Run(events[..i]).value, events[i], h)
  }

  lemma RemovedSnoc(events: seq<Event>, h: Handle)
    requires events != [] && Run(events[..|events| - 1]).Some?
    requires Removed(events[..|events| - 1], h) || Removes(Run(events[..|events| - 1]).value, events[|events| - 1], h)
    ensures Removed(events, h)
  {
    hide Run, Removes;
    var n := |events| - 1;
    if Removed(events[..n], h) {
      var i :| 0 <= i < n && Run(events[..n][..i]).Some? && Removes(Run(events[..n][..i]).value, events[..n][i], h);
      assert events[..n][..i] == events[..i] && events[..n][i] == events[i];
    }
  }

  /**
   In every run a registered handle is live unless its fd was torn down or a write to
   it was fatal: back-pressure drops nobody.
   */
  lemma {:induction false} RegisteredIsLiveOrRemoved(events: seq<Event>, h: Handle)
    requires Run(events).Some? && h in Run(events).value.registered
    ensures h in Run(events).value.pump.handles || Removed(events, h)
    decreases |events|
  {
    if events != [] {
      var n := |events| - 1;
      var s, e := Run(events[..n]).value, events[n];
      assert Run(events).value == Apply(s, e) && Enabled(s, e);
      hide Run, Enabled, Apply, Removed, Removes;
      if h in s.registered {
        RegisteredIsLiveOrRemoved(events[..n], h);
        if Removed(events[..n], h) || Removes(s, e, h) {
          RemovedSnoc(events, h);
        } else {
          HandleStays(s, e, h);
        }
      } else {
        RegisteringMakesLive(s, e, h);
      }
    }
  }

  // ---- Which closes are remembered -------------------------------------

  predicate BringsEof(e: Event, h: Handle) {
    e == ServerEof(h) || e == TransportEof
  }

  /** A close of `h`, or the end of the transport, came when `h` was already registered. */
  ghost predicate EofCame(events: seq<Event>, h: Handle) {
    exists i | 0 <= i < |events| ::
      BringsEof(events[i], h) && Run(events[..i]).Some? && h in Run(events[..i]).value.registered
  }

  lemma EofCameSnoc(events: seq<Event>, h: Handle)
    requires events != [] && Run(events[..|events| - 1]).Some?
    ensures var n := |events| - 1;
            EofCame(events, h) <==>
              EofCame(events[..n], h) || (BringsEof(events[n], h) && h in Run(events[..n]).value.registered)
  {
    hide Run, BringsEof;
    var n := |events| - 1;
    assert forall i | 0 <= i < n :: events[..n][..i] == events[..i] && events[..n][i] == events[i];
    if EofCame(events[..n], h) {
      var i :| 0 <= i < n && BringsEof(events[..n][i], h) && Run(events[..n][..i]).Some?
               && h in Run(events[..n][..i]).value.registered;
      assert BringsEof(events[i], h);
    }
    if EofCame(events, h) {
      var i :| 0 <= i < |events| && BringsEof(events[i], h) && Run(events[..i]).Some?
               && h in Run(events[..i]).value.registered;
      if i < n {
        assert BringsEof(events[..n][i], h);
      }
    }
  }

  lemma PushKeepsEof(s: State, k: Handle, data: seq<byte>, o: WriteOutcome, h: Handle)
    requires Enabled(s, PushBytes(k, data, o)) && h in Apply(s, PushBytes(k, data, o)).pump.handles
    ensures h in s.pump.handles
    ensures Apply(s, PushBytes(k, data, o)).pump.handles[h].eof == s.pump.handles[h].eof
  {
    hide Log, Nudge, Deliver, PushNotifies, Staged, Take, Room, Taken;
  }

  lemma FlushKeepsEof(s: State, k: Handle, n: nat, o: WriteOutcome, h: Handle)
    requires Enabled(s, FlushBytes(k, n, o)) && h in Apply(s, FlushBytes(k, n, o)).pump.handles
    ensures h in s.pump.handles
    ensures Apply(s, FlushBytes(k, n, o)).pump.handles[h].eof == s.pump.handles[h].eof
  {
    hide Deliver, Taken;
  }

  predicate TouchesEntries(e: Event) {
    e.RegisterPair? || e.Forget? || e.ServerEof? || e.TransportEof? || e.FlushEof?
  }

  lemma EntryKeepsEof(s: State, e: Event, h: Handle)
    requires PairsInv(s) && HandleInv(s, h) && Enabled(s, e) && h in Apply(s, e).pump.handles && TouchesEntries(e)
    ensures h in s.pump.handles ==> (Apply(s, e).pump.handles[h].eof <==> s.pump.handles[h].eof || BringsEof(e, h))
    ensures h !in s.pump.handles ==> !Apply(s, e).pump.handles[h].eof && h !in s.registered && !BringsEof(e, h)
  {
    hide HasWork, ShutDown, Nudge, Staged;
    if e.RegisterPair? || e.Forget? {
      assert PairInv(s, e.pid);
    }
  }

  lemma PumpIsLeft(s: State, e: Event)
    requires Enabled(s, e) && MovesFds(e)
    ensures Apply(s, e).pump == s.pump
  {
    hide HasWork;
  }

  lemma StoreLeavesPump(s: State, e: Event)
    requires Enabled(s, e) && (e.StoreHandle? || e.StoreListener?)
    ensures Apply(s, e).pump == s.pump
  {
  }

  /** What one step does to the EOF mark of an entry that is live after it. */
  lemma EofStep(s: State, e: Event, h: Handle)
    requires PairsInv(s) && GoodFor(s, h) && Enabled(s, e) && h in Apply(s, e).pump.handles
    ensures h in s.pump.handles ==> (Apply(s, e).pump.handles[h].eof <==> s.pump.handles[h].eof || BringsEof(e, h))
    ensures h !in s.pump.handles ==> !Apply(s, e).pump.handles[h].eof && h !in s.registered && !BringsEof(e, h)
  {
    hide Enabled, Apply, PairsInv, HandleInv, DeliveryInv;
    if e.PushBytes? {
      PushKeepsEof(s, e.h, e.data, e.o, h);
    } else if e.FlushBytes? {
      FlushKeepsEof(s, e.h, e.k, e.o, h);
    } else if TouchesEntries(e) {
      EntryKeepsEof(s, e, h);
    } else if MovesFds(e) {
      PumpIsLeft(s, e);
    } else {
      StoreLeavesPump(s, e);
    }
  }

  /** The registered handles after a step. */
  lemma RegisteredGrows(s: State, e: Event)
    requires Enabled(s, e)
    ensures s.registered <= Apply(s, e).registered
  {
    LedgerStep(s, e, 0);
    hide Enabled, Apply;
  }

  lemma {:induction false} EofIsRemembered(events: seq<Event>, h: Handle)
    requires Run(events).Some?
    ensures EofCame(events, h) ==> h in Run(events).value.registered
    ensures h in Run(events).value.pump.handles ==>
              (Run(events).value.pump.handles[h].eof <==> EofCame(events, h))
    decreases |events|
  {
    if events != [] {
      var n := |events| - 1;
      var s, e := Run(events[..n]).value, events[n];
      assert Run(events).value == Apply(s, e);
      RunKeepsInv(events[..n]);
      assert GoodFor(s, h);
      hide Run, Enabled, Apply, EofCame, GoodFor, PairsInv, FlusherInv, BringsEof;
      EofIsRemembered(events[..n], h);
      EofCameSnoc(events, h);
      RegisteredGrows(s, e);
      if h in Apply(s, e).pump.handles {
        EofStep(s, e, h);
        LiveIsRegistered(s, h);
      }
    }
  }

  lemma LiveIsRegistered(s: State, h: Handle)
    requires GoodFor(s, h)
    ensures h in s.pump.handles ==> h in s.registered
  {
  }

  /**
   A live session's EOF is noted exactly when a close of its handle, or the end of
   the transport, came after its registration; a close before that is forgotten.
   */
  lemma EofIsNotedIff(events: seq<Event>, h: Handle)
    requires Run(events).Some? && h in Run(events).value.pump.handles
    ensures Run(events).value.pump.handles[h].eof <==> EofCame(events, h)
  {
    EofIsRemembered(events, h);
  }

  lemma NextEvent(events: seq<Event>, e: Event) returns (next: seq<Event>)
    requires Run(events).Some? && Enabled(Run(events).value, e)
    ensures next == events + [e] && Run(next) == Some(Apply(Run(events).value, e))
  {
    next := events + [e];
    assert next[..|next| - 1] == events;
  }

  /** A close dispatched between the openReply and the registration: the session is live and never gets its EOF. */
  lemma AnEarlyCloseIsLost(pid: Pid, h: Handle, a: Fd, i: Fd) returns (events: seq<Event>)
    requires a != i
    ensures ServerEof(h) in events && Run(events).Some? && h in Run(events).value.pump.handles
    ensures !Run(events).value.pump.handles[h].eof && !EofCame(events, h)
  {
    events := [];
    assert Run(events) == Some(Start);
    hide Run, EofCame;
    events := NextEvent(events, Socket(pid, a, i));
    events := NextEvent(events, StoreHandle(pid, h));
    events := NextEvent(events, ServerEof(h));
    events := NextEvent(events, RegisterPair(pid));
    EofIsRemembered(events, h);
  }

  // ---- The pump in place is a run of flusher steps ---------------------

  /** `events` from state `s` on. */
  function RunFrom(s: State, events: seq<Event>): Option<State>
    decreases |events|
  {
    if events == [] then Some(s)
    else if Enabled(s, events[0]) then RunFrom(Apply(s, events[0]), events[1..])
    else None
  }

  /** `t` is `s` with entry `h` become `now`, and `moved` bytes and `shuts` shutdowns gone to its socketpair. */
  predicate Passes(s: State, t: State, h: Handle, now: Option<Pending>, moved: seq<byte>, shuts: nat)
    requires h in s.owner && s.owner[h] in s.pairs
  {
    var p := s.pairs[s.owner[h]];
    && t.flusher == s.flusher && t.pump.early == s.pump.early && !t.stray
    && t.table == s.table && t.owner == s.owner && t.ledgers == s.ledgers && t.registered == s.registered
    && t.pump.handles == (if now.Some? then s.pump.handles[h := now.value] else s.pump.handles - {h})
    && t.pairs == s.pairs[s.owner[h] := p.(delivered := p.delivered + moved, shuts := p.shuts + shuts)]
  }

  lemma FlushPasses(s: State, h: Handle, o: WriteOutcome)
    requires Inv(s) && s.flusher.Awake? && h in s.pump.handles && s.pump.handles[h].buf != []
    requires o.Wrote? ==> 1 <= o.n <= |s.pump.handles[h].buf|
    ensures h in s.owner && s.owner[h] in s.pairs
    ensures var e := s.pump.handles[h];
            var k := if o.Wrote? then o.n else 1;
            var now := if o.Fatal? then None else Some(e.(buf := if o.Wrote? then e.buf[k..] else e.buf));
            && Enabled(s, FlushBytes(h, k, o))
            && Passes(s, Apply(s, FlushBytes(h, k, o)), h, now, if o.Wrote? then e.buf[..k] else [], 0)
  {
    assert GoodFor(s, h);
    LiveEntryIsOwn(s, h);
    assert PairInv(s, s.owner[h]);
    hide HasWork, Owed, PairsInv, FlusherInv;
    var e := s.pump.handles[h];
    assert o.Wrote? ==> e.buf[..o.n][..o.n] == e.buf[..o.n];
    assert s.pairs[s.owner[h]].delivered + [] == s.pairs[s.owner[h]].delivered;
    assert s.pump.handles[h := e] == s.pump.handles;
  }

  lemma EofPasses(s: State, h: Handle)
    requires Inv(s) && s.flusher.Awake? && EofDue(s.pump, h)
    ensures h in s.owner && s.owner[h] in s.pairs && Enabled(s, FlushEof(h))
    ensures Passes(s, Apply(s, FlushEof(h)), h, Some(s.pump.handles[h].(eofDone := true)), [], 1)
  {
    assert GoodFor(s, h);
    LiveEntryIsOwn(s, h);
    hide HasWork, Owed, PairsInv, FlusherInv;
    assert s.pairs[s.owner[h]].delivered + [] == s.pairs[s.owner[h]].delivered;
  }

  lemma Nothing(s: State, h: Handle)
    requires Inv(s) && h in s.pump.handles
    ensures h in s.owner && s.owner[h] in s.pairs && Passes(s, s, h, Some(s.pump.handles[h]), [], 0)
  {
    assert GoodFor(s, h);
    assert s.pairs[s.owner[h]].delivered + [] == s.pairs[s.owner[h]].delivered;
  }

  /** Two passes in a row are one. */
  lemma PassesOn(s: State, t: State, u: State, h: Handle, mid: Pending, now: Option<Pending>,
                 m1: seq<byte>, m2: seq<byte>, k: nat)
    requires h in s.owner && s.owner[h] in s.pairs
    requires t.owner == s.owner
    requires Passes(s, t, h, Some(mid), m1, 0) && Passes(t, u, h, now, m2, k)
    ensures Passes(s, u, h, now, m1 + m2, k)
  {
    var d := s.pairs[s.owner[h]].delivered;
    assert d + m1 + m2 == d + (m1 + m2);
  }

  /**
   What `PassEntry` promises of one entry is what flusher steps do to it: for every
   outcome its contract allows there is a run of `FlushBytes` and `FlushEof` with that
   outcome, so the theorems about runs hold of the pump in place.
   */
  lemma PassEntryIsARun(s: State, h: Handle, now: Option<Pending>, w0: seq<byte>, w1: seq<byte>, s0: nat, s1: nat)
    returns (events: seq<Event>)
    requires Inv(s) && s.flusher.Awake? && h in s.pump.handles
    requires Passed(s.pump.handles[h], now, w0, w1, s0, s1)
    ensures RunFrom(s, events).Some? && h in s.owner && s.owner[h] in s.pairs && w0 <= w1 && s0 <= s1
    ensures forall e | e in events :: IsFlush(e, h)
    ensures Passes(s, RunFrom(s, events).value, h, now, w1[|w0|..], s1 - s0)
  {
    var moved := w1[|w0|..];
    Nothing(s, h);
    var e := s.pump.handles[h];
    hide Enabled, Apply, Inv, Passes;
    var t, first: seq<Event> := s, [];
    var mid := e;
    if moved != [] {
      FlushPasses(s, h, Wrote(|moved|));
      first := [FlushBytes(h, |moved|, Wrote(|moved|))];
      t := Apply(s, first[0]);
      mid := e.(buf := e.buf[|moved|..]);
      assert e.buf[..|moved|] == moved;
      StepKeepsInv(s, first[0]);
      OwnersStay(s, first[0]);
    } else {
      assert moved == [];
    }
    PassedEntry(s, t, h, mid, moved);
    if now.Some? {
      assert moved + now.value.buf == e.buf;
      assert mid.buf == now.value.buf;
    }
    if now.None? {
      FlushPasses(t, h, Fatal);
      var last := FlushBytes(h, 1, Fatal);
      PassesOn(s, t, Apply(t, last), h, mid, now, moved, [], 0);
      assert moved + [] == moved;
      events := first + [last];
      TwoSteps(s, first, last);
    } else if SendsEof(e, now.value.buf) {
      EofPasses(t, h);
      PassesOn(s, t, Apply(t, FlushEof(h)), h, mid, now, moved, [], 1);
      assert moved + [] == moved;
      events := first + [FlushEof(h)];
      TwoSteps(s, first, FlushEof(h));
    } else {
      events := first;
    }
  }

  /** A flusher step on `h`. */
  predicate IsFlush(e: Event, h: Handle) {
    (e.FlushBytes? || e.FlushEof?) && e.h == h
  }

  lemma OwnersStay(s: State, e: Event)
    requires Enabled(s, e) && (e.FlushBytes? || e.FlushEof?)
    ensures Apply(s, e).owner == s.owner
  {
  }

  lemma PassedEntry(s: State, t: State, h: Handle, mid: Pending, moved: seq<byte>)
    requires h in s.owner && s.owner[h] in s.pairs && Passes(s, t, h, Some(mid), moved, 0)
    ensures h in t.pump.handles && t.pump.handles[h] == mid && t.flusher == s.flusher
  {
  }

  lemma TwoSteps(s: State, first: seq<Event>, last: Event)
    requires |first| <= 1 && RunFrom(s, first).Some? && Enabled(RunFrom(s, first).value, last)
    ensures RunFrom(s, first + [last]) == Some(Apply(RunFrom(s, first).value, last))
  {
    hide Enabled, Apply;
    if first == [] {
      assert first + [last] == [last];
    } else {
      assert (first + [last])[1..] == [last] && first[1..] == [];
      assert RunFrom(Apply(s, first[0]), [last]) == Some(Apply(Apply(s, first[0]), last));
    }
  }

  /**
   The flusher is never parked un-notified while an entry has a backlog or an EOF to
   send; woken with such work it goes to it, and without it back to sleep.
   */
  lemma FlusherNeverOversleeps(events: seq<Event>)
    requires Run(events).Some?
    ensures var s := Run(events).value;
            var work := exists h | h in s.pump.handles ::
                          var e := s.pump.handles[h]; e.buf != [] || (e.eof && !e.eofDone);
            && (work ==> !s.flusher.Parked?)
            && (!s.flusher.Awake? ==> Apply(s, Wake).flusher == if work then Awake else Parked)
            && (s.flusher.Awake? ==> (Enabled(s, Park) <==> !work))
  {
    RunKeepsInv(events);
    hide Run;
    var s := Run(events).value;
    assert HasWork(s.pump) <==> exists h | h in s.pump.handles ::
      var e := s.pump.handles[h]; e.buf != [] || (e.eof && !e.eofDone) by {
      forall h | h in s.pump.handles
        ensures EntryHasWork(s.pump.handles[h]) <==> var e := s.pump.handles[h]; e.buf != [] || (e.eof && !e.eofDone) {
      }
    }
  }
}
