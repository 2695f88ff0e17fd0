/**
 One RHP session's outbound direction as a transition system: the thread inside
 connect() or accept(), the RHP reader thread, the outbound-pump thread and the
 application, stepping in any order over the socketpair's app-to-inner pipe
 (crates/ax25-interpose/src/state.rs, lib.rs; crates/rhpv2/src/client.rs).

 The pipe first carries the connect gate's filler and later the bytes that the
 application wrote past the interposer. Each step below is one critical section
 or one system call of the source.
 */
module ConnectSession {
  import opened Bytes
  import opened ConnRegistry

  /** A byte in the pipe: gate filler, or byte number `pos` of the application's output. */
  datatype Cell = Filler | App(pos: nat)

  /** How the session came about: connect() on a (non-)blocking fd, or accept(). */
  datatype Kind = Blocking | NonBlocking | Accepted

  /** Where the connecting thread stands. */
  datatype Stage =
    | Opened      // the handle exists; set_pending has not run
    | Tracked     // set_pending ran
    | Wired       // handle stored in the fd state, recv pump registered
    | Filling     // inside arm_connect_gate's fill loop
    | GateUp      // gate inserted; connect_result not yet read
    | GateFound   // connect_result was Some: about to resolve
    | Draining    // resolve took the gate out: inside the drain loop
    | Drained     // drain loop over; outbound register not yet run
    | Waiting     // blocking: inside wait_connected
    | LinkUp      // established; outbound register not yet run
    | Returned    // back in the application

  /** Where the reader thread stands with respect to this handle. */
  datatype ReaderAt =
    | RAway
    | RMustResolve(early: bool)   // a push was dispatched; early: a close that found no entry to fail
    | RDraining
    | RDrained

  /** The application's interposed write, if one is in progress: bytes lo..hi are still unsent. */
  datatype AppAt =
    | AIdle
    | ACalled(lo: nat, hi: nat)    // before the pump lookup
    | ADirect(lo: nat, hi: nat)    // lookup found no entry
    | AWants(lo: nat, hi: nat)     // lookup found the entry; waiting for `serial`
    | ADraining(lo: nat, hi: nat)  // holds `serial`, inside drain_locked
    | AFlushed(lo: nat, hi: nat)   // holds `serial`, sending its own buffer

  datatype PumpAt = PAway | PKnows | PHolds

  /** The transport: up; `closed` stored; every pending connect failed; gates snapshotted by on_disconnect. */
  datatype Link = Up | Closing | AllFailed | Swept

  predicate Down(link: Link) {
    link.AllFailed? || link.Swept?
  }

  datatype Session = Session(
    kind: Kind,
    cap: nat,              // bytes the pipe takes before the app end stops being writable
    entry: Entry,          // the connect registry's entry
    stage: Stage,
    reader: ReaderAt,
    listed: bool,          // on_disconnect's snapshot holds this handle, not yet resolved
    gate: bool,            // connect_gates holds this handle
    outbound: bool,        // the outbound pump holds this handle
    pipe: seq<Cell>,       // app end to inner end
    app: AppAt,
    pump: PumpAt,
    held: seq<Cell>,       // read from the pipe by the holder of `serial`, not yet sent
    asking: nat,           // getsockopt calls that hold the client and have not read its registry
    written: nat,          // bytes the application has written so far, by either path
    // history
    sent: seq<Cell>,       // everything handed to RHP send
    discarded: seq<Cell>,  // everything the drain loops threw away
    armed: nat,            // times a gate was inserted
    drains: nat,           // times a gate was taken out for draining
    released: bool,        // a drain loop has finished
    overtook: bool,        // a direct send passed bytes still waiting in the pipe
    lateOpen: bool,        // set_pending created the entry after fail_all_pending
    lateGate: bool,        // the gate was inserted after on_disconnect's snapshot
    slipped: bool          // an early close took the gate out
  )

  /** Steps of the thread inside connect() or accept(). */
  datatype ConnectStep =
    | SetPendingStep | Wire | StartFill | FillSome(n: nat) | InsertGate | ReadResult
    | TakeGate | DrainSome(n: nat) | DrainEnd | RegisterOutbound
    | StartWait | WaitOk | WaitErr

  /** Steps of the reader thread; the last three act on every session at once. */
  datatype ReaderStep =
    | Status | Close(code: int) | ResolveGate | ReadFiller(n: nat) | ReadEnd | ReaderRegisters
    | NextListed | StoreClosed | FailAll | Snapshot

  /**
   Steps of the application: a getsockopt(SO_ERROR) getting hold of the client and
   reading its registry, a bypassed write, and the parts of an interposed write.
   */
  datatype AppStep =
    | AskSoError | ReadSoError | Bypass(n: nat) | Call(n: nat) | Lookup | TakeSerial | AppReads(n: nat)
    | AppForwards | AppDrained | AppSends(n: nat) | AppReturns | DirectSends(n: nat) | DirectReturns

  /** Steps of the outbound-pump thread. */
  datatype PumpStep = PumpLooksUp | PumpLocks | PumpReads(n: nat) | PumpForwards | PumpUnlocks

  datatype Event =
    | Connector(c: ConnectStep)
    | Reader(r: ReaderStep)
    | Application(a: AppStep)
    | Pump(p: PumpStep)

  function Positions(lo: nat, hi: nat): (r: seq<Cell>)
    requires lo <= hi
    ensures |r| == hi - lo
    ensures forall i | 0 <= i < |r| :: r[i] == App(lo + i)
  {
    seq(hi - lo, i requires 0 <= i < hi - lo => App(lo + i))
  }

  /** The unsent rest of the interposed write in progress. */
  function Rest(a: AppAt): seq<Cell> {
    if a.AIdle? || a.hi < a.lo then [] else Positions(a.lo, a.hi)
  }

  /** The application bytes of a pipe, in order. */
  function AppCells(p: seq<Cell>): seq<Cell> {
    if p == [] then []
    else (if p[0].App? then [p[0]] else []) + AppCells(p[1..])
  }

  predicate AllApp(p: seq<Cell>) {
    forall c | c in p :: c.App?
  }

  predicate AllFiller(p: seq<Cell>) {
    forall c | c in p :: c.Filler?
  }

  lemma {:induction false} AppCellsOf(p: seq<Cell>)
    ensures AllApp(p) ==> AppCells(p) == p
    ensures AllFiller(p) ==> AppCells(p) == []
  {
    if p != [] {
      assert p[0] in p;
      assert forall c | c in p[1..] :: c in p;
      AppCellsOf(p[1..]);
    }
  }

  /** The session's outbound bytes in the order in which RHP gets them. */
  function Line(x: Session): seq<Cell> {
    x.sent + x.held + AppCells(x.pipe) + Rest(x.app)
  }

  predicate SerialFree(x: Session) {
    !x.pump.PHolds? && !x.app.ADraining? && !x.app.AFlushed?
  }

  predicate ConnectEnabled(x: Session, e: ConnectStep) {
    match e
    case SetPendingStep => x.stage.Opened? && !x.kind.Accepted?
    case Wire => if x.kind.Accepted? then x.stage.Opened? else x.stage.Tracked?
    case StartFill => x.stage.Wired? && x.kind.NonBlocking?
    case FillSome(n) => x.stage.Filling? && |x.pipe| + n <= x.cap
    case InsertGate => x.stage.Filling? && |x.pipe| >= x.cap   // EAGAIN ended the fill loop
    case ReadResult => x.stage.GateUp?
    case TakeGate => x.stage.GateFound?
    case DrainSome(n) => x.stage.Draining? && 1 <= n <= |x.pipe|
    case DrainEnd => x.stage.Draining? && x.pipe == []
    case RegisterOutbound => x.stage.Drained? || x.stage.LinkUp?
    case StartWait => x.stage.Wired? && x.kind.Blocking?
    case WaitOk => x.stage.Waiting? && x.entry == Some(Connected)
    case WaitErr => x.stage.Waiting?   // failed, timed out, or transport gone
  }

  predicate ReaderEnabled(x: Session, link: Link, e: ReaderStep) {
    match e
    case Status => x.reader.RAway? && link.Up?
    case Close(code) => x.reader.RAway? && link.Up?
    case ResolveGate => x.reader.RMustResolve?
    case ReadFiller(n) => x.reader.RDraining? && 1 <= n <= |x.pipe|
    case ReadEnd => x.reader.RDraining? && x.pipe == []
    case ReaderRegisters => x.reader.RDrained?
    case NextListed => x.reader.RAway? && link.Swept? && x.listed
    case StoreClosed => x.reader.RAway? && link.Up?
    case FailAll => x.reader.RAway? && link.Closing?
    case Snapshot => x.reader.RAway? && link.AllFailed?
  }

  predicate AppEnabled(x: Session, e: AppStep) {
    match e
    case AskSoError => true
    case ReadSoError => x.asking > 0
    case Bypass(n) =>
      && x.app.AIdle? && (x.kind.NonBlocking? ==> x.released) && (x.kind.Accepted? ==> x.stage.Returned?)
      && |x.pipe| + n <= x.cap
    case Call(n) =>
      x.app.AIdle? && !x.stage.Opened? && !x.stage.Tracked? && (x.kind.Accepted? ==> x.stage.Returned?)
    case Lookup => x.app.ACalled?
    case TakeSerial => x.app.AWants? && SerialFree(x)
    case AppReads(n) => x.app.ADraining? && x.held == [] && 1 <= n <= |x.pipe|
    case AppForwards => x.app.ADraining? && x.held != []
    case AppDrained => x.app.ADraining? && x.held == [] && x.pipe == []
    case AppSends(n) => x.app.AFlushed? && 1 <= n && x.app.lo + n <= x.app.hi
    case AppReturns => x.app.AFlushed? && x.app.lo == x.app.hi
    case DirectSends(n) => x.app.ADirect? && 1 <= n && x.app.lo + n <= x.app.hi
    case DirectReturns => x.app.ADirect? && x.app.lo == x.app.hi
  }

  predicate PumpEnabled(x: Session, e: PumpStep) {
    match e
    case PumpLooksUp => x.pump.PAway? && x.outbound
    case PumpLocks => x.pump.PKnows? && SerialFree(x)
    case PumpReads(n) => x.pump.PHolds? && x.held == [] && 1 <= n <= |x.pipe|
    case PumpForwards => x.pump.PHolds? && x.held != []
    case PumpUnlocks => x.pump.PHolds? && x.held == [] && x.pipe == []
  }

  /**
   When an event can happen. The assumptions about the application: it makes
   no bypassed write on a non-blocking connect's fd before a drain loop has
   finished, and none while it is inside an interposed write; it has no accepted
   fd before accept() returned. The one about the kernel: a DONTWAIT recv fails only
   on an empty pipe (`DrainEnd`, `ReadEnd`, `AppDrained`, `PumpUnlocks`).
   */
  predicate Enabled(x: Session, link: Link, e: Event) {
    match e
    case Connector(c) => ConnectEnabled(x, c)
    case Reader(r) => ReaderEnabled(x, link, r)
    case Application(a) => AppEnabled(x, a) && (a.AskSoError? ==> link.Up?)
    case Pump(p) => PumpEnabled(x, p)
  }

  function Fill(n: nat): seq<Cell> {
    seq(n, i => Filler)
  }

  function ConnectApply(x: Session, link: Link, e: ConnectStep): Session
    requires ConnectEnabled(x, e)
  {
    match e
    case SetPendingStep =>
      x.(stage := Tracked, entry := ApplyOp(x.entry, SetPending),
         lateOpen := Down(link) && x.entry.None?)
    case Wire => x.(stage := if x.kind.Accepted? then LinkUp else Wired)
    case StartFill => x.(stage := Filling)
    case FillSome(n) => x.(pipe := x.pipe + Fill(n))
    case InsertGate => x.(stage := GateUp, gate := true, armed := x.armed + 1, lateGate := link.Swept?)
    case ReadResult => x.(stage := if Terminal(x.entry) then GateFound else Returned)
    case TakeGate =>
      if x.gate then x.(stage := Draining, gate := false, drains := x.drains + 1)
      else x.(stage := Returned)
    case DrainSome(n) => x.(pipe := x.pipe[n..], discarded := x.discarded + x.pipe[..n])
    case DrainEnd => x.(stage := Drained, released := true)
    case RegisterOutbound => x.(stage := Returned, outbound := true)
    case StartWait => x.(stage := Waiting)
    case WaitOk => x.(stage := LinkUp)
    case WaitErr => x.(stage := Returned)
  }

  function ReaderApply(x: Session, link: Link, e: ReaderStep): Session
    requires ReaderEnabled(x, link, e)
  {
    match e
    case Status => x.(entry := ApplyOp(x.entry, StatusConnected), reader := RMustResolve(false))
    case Close(code) => x.(entry := ApplyOp(x.entry, ServerClose(code)), reader := RMustResolve(x.entry.None?))
    case ResolveGate =>
      if x.gate then
        x.(reader := RDraining, gate := false, drains := x.drains + 1, slipped := x.reader.early)
      else x.(reader := RAway)
    case ReadFiller(n) => x.(pipe := x.pipe[n..], discarded := x.discarded + x.pipe[..n])
    case ReadEnd => x.(reader := RDrained, released := true)
    case ReaderRegisters => x.(reader := RAway, outbound := true)
    case NextListed => x.(listed := false, reader := RMustResolve(false))
    case StoreClosed => x
    case FailAll => x.(entry := ApplyOp(x.entry, TransportLost))
    case Snapshot => x.(listed := x.gate)
  }

  function AppApply(x: Session, e: AppStep): Session
    requires AppEnabled(x, e)
  {
    match e
    case AskSoError => x.(asking := x.asking + 1)
    case ReadSoError => x.(asking := x.asking - 1, entry := ApplyOp(x.entry, TakeError))
    case Bypass(n) => x.(pipe := x.pipe + Positions(x.written, x.written + n), written := x.written + n)
    case Call(n) => x.(app := ACalled(x.written, x.written + n), written := x.written + n)
    case Lookup => x.(app := if x.outbound then AWants(x.app.lo, x.app.hi) else ADirect(x.app.lo, x.app.hi))
    case TakeSerial => x.(app := ADraining(x.app.lo, x.app.hi))
    case AppReads(n) => x.(held := x.pipe[..n], pipe := x.pipe[n..])
    case AppForwards => x.(sent := x.sent + x.held, held := [])
    case AppDrained => x.(app := AFlushed(x.app.lo, x.app.hi))
    case AppSends(n) =>
      x.(sent := x.sent + Positions(x.app.lo, x.app.lo + n), app := AFlushed(x.app.lo + n, x.app.hi))
    case AppReturns => x.(app := AIdle)
    case DirectSends(n) =>
      x.(sent := x.sent + Positions(x.app.lo, x.app.lo + n), app := ADirect(x.app.lo + n, x.app.hi),
         overtook := x.overtook || x.held != [] || AppCells(x.pipe) != [])
    case DirectReturns => x.(app := AIdle)
  }

  function PumpApply(x: Session, e: PumpStep): Session
    requires PumpEnabled(x, e)
  {
    match e
    case PumpLooksUp => x.(pump := PKnows)
    case PumpLocks => x.(pump := PHolds)
    case PumpReads(n) => x.(held := x.pipe[..n], pipe := x.pipe[n..])
    case PumpForwards => x.(sent := x.sent + x.held, held := [])
    case PumpUnlocks => x.(pump := PAway)
  }

  function Apply(x: Session, link: Link, e: Event): Session
    requires Enabled(x, link, e)
  {
    match e
    case Connector(c) => ConnectApply(x, link, c)
    case Reader(r) => ReaderApply(x, link, r)
    case Application(a) => AppApply(x, a)
    case Pump(p) => PumpApply(x, p)
  }

  function Fresh(kind: Kind, entry: Entry, cap: nat): Session {
    Session(kind, cap, entry, Opened, RAway, false, false, false, [], AIdle, PAway, [], 0, 0,
            [], [], 0, 0, false, false, false, false, false)
  }

  // ---- Invariants of one session ---------------------------------------

  predicate BeforeGate(st: Stage) {
    st.Opened? || st.Tracked? || st.Wired? || st.Filling? || st.Waiting? || st.LinkUp?
  }

  predicate AtGate(st: Stage) {
    st.GateUp? || st.GateFound? || st.Draining? || st.Drained?
  }

  /** Which stages a session of each kind passes, and when its gate goes in. */
  predicate KindInv(x: Session) {
    && (AtGate(x.stage) || x.stage.Filling? ==> x.kind.NonBlocking?)
    && (!x.kind.NonBlocking? || BeforeGate(x.stage) ==> x.armed == 0)
    && (x.kind.NonBlocking? && (AtGate(x.stage) || x.stage.Returned?) ==> x.armed == 1)
    && (x.kind.NonBlocking? ==> !x.stage.LinkUp? && !x.stage.Waiting?)
    && (x.kind.Accepted? ==> x.stage.Opened? || x.stage.LinkUp? || x.stage.Returned?)
  }

  predicate CountInv(x: Session) {
    x.drains + (if x.gate then 1 else 0) == x.armed <= 1
  }

  /** Who drains the gate's filler, and what follows. */
  predicate DrainInv(x: Session) {
    && (x.released ==> x.drains == 1)
    && !(x.stage.Draining? && (x.reader.RDraining? || x.reader.RDrained?))
    && !(x.stage.Drained? && (x.reader.RDraining? || x.reader.RDrained?))
    && (x.stage.Draining? || x.reader.RDraining? ==> x.drains == 1 && !x.released)
    && (x.stage.Drained? || x.reader.RDrained? ==> x.released && !x.outbound)
    && (x.drains == 1 && !x.released ==> x.stage.Draining? || x.reader.RDraining?)
    && (x.outbound && x.kind.NonBlocking? ==> x.released)
    && (x.released ==> x.outbound || x.stage.Drained? || x.reader.RDrained?)
  }

  /** The gate and its filler. */
  predicate GateInv(x: Session) {
    CountInv(x) && KindInv(x) && DrainInv(x)
  }

  /** Before a drain loop has finished a gated pipe holds nothing but filler; otherwise it holds none. */
  predicate PipeInv(x: Session) {
    && (x.kind.NonBlocking? && !x.released ==> AllFiller(x.pipe))
    && (!x.kind.NonBlocking? || x.released ==> AllApp(x.pipe))
    && AllFiller(x.discarded)
    && (x.gate ==> |x.pipe| >= x.cap)
  }

  /** Why a gate may still be armed. */
  predicate ReleaseInv(x: Session, link: Link) {
    && (x.gate && Terminal(x.entry) ==>
          || (x.stage.GateUp? || x.stage.GateFound?) || x.reader.RMustResolve?
          || link.AllFailed? || (link.Swept? && x.listed))
    && (x.stage.Opened? && !x.kind.Accepted? ==> !x.lateOpen)
    && (Down(link) && x.entry == Some(Pending) ==> x.lateOpen)
    && (x.lateOpen ==> Down(link) && x.entry == Some(Pending))
    && (!x.stage.Opened? && !x.kind.Accepted? ==> x.entry.Some?)
    && (x.lateGate ==> link.Swept? && x.armed == 1)
    && (link.Swept? && !x.lateGate && x.gate ==> x.listed || x.reader.RMustResolve?)
    && (link.Closing? || link.AllFailed? ==> x.reader.RAway?)
    && (x.listed ==> link.Swept? && x.armed == 1)
    && (x.lateGate ==> !x.listed && x.reader.RAway?)
    && (x.lateOpen && x.lateGate ==> x.gate)
    && (x.lateOpen ==> !x.stage.GateFound?)
    && (link.Swept? && !x.reader.RAway? ==> x.armed == 1)
    && (!Down(link) && x.reader.RMustResolve? && !x.reader.early ==> Terminal(x.entry))
    && (!Down(link) && x.drains == 1 ==> Terminal(x.entry) || x.slipped)
    && (x.slipped ==> x.drains == 1)
    && (x.stage.GateFound? ==> Terminal(x.entry))
  }

  /** Who holds `serial`, and what passes through its holder's hands. */
  predicate SerialInv(x: Session) {
    && !(x.pump.PHolds? && (x.app.ADraining? || x.app.AFlushed?))
    && (x.pump.PKnows? || x.pump.PHolds? || x.app.AWants? || x.app.ADraining? || x.app.AFlushed? ==> x.outbound)
    && (x.held != [] ==> x.pump.PHolds? || x.app.ADraining?)
    && (x.app.AFlushed? ==> x.pipe == [] && x.held == [])
    && AllApp(x.held) && AllApp(x.sent)
    && (!x.app.AIdle? ==> x.app.lo <= x.app.hi == x.written)
    && (x.kind.Accepted? ==>
          && !x.overtook && !x.app.ADirect?
          && (x.stage.Returned? ==> x.outbound)
          && (!x.app.AIdle? ==> x.stage.Returned?))
  }

  predicate Before(p: seq<Cell>, n: nat) {
    forall c | c in p && c.App? :: c.pos < n
  }

  predicate Inverted(p: seq<Cell>) {
    exists i, j | 0 <= i < j < |p| :: p[i].App? && p[j].App? && p[j].pos < p[i].pos
  }

  /** Everything ahead of an interposed write in progress was written before it. */
  predicate AgeInv(x: Session) {
    var waiting := if x.app.AIdle? then x.written else x.app.lo;
    Before(x.held, waiting) && Before(x.pipe, waiting)
  }

  /** No byte is lost and none is doubled, whatever the order. */
  predicate Conserved(x: Session) {
    multiset(Line(x)) == multiset(Positions(0, x.written))
  }

  /** The line is the program order, or it is inverted: it cannot heal. */
  predicate LineInv(x: Session) {
    && Conserved(x)
    && (!x.overtook ==> Line(x) == Positions(0, x.written))
    && (x.overtook ==> Inverted(Line(x)))
  }

  predicate SafeInv(x: Session, link: Link) {
    GateInv(x) && PipeInv(x) && ReleaseInv(x, link) && SerialInv(x)
  }

  predicate Inv(x: Session, link: Link) {
    SafeInv(x, link) && AgeInv(x) && LineInv(x)
  }

  function LinkAfter(link: Link, e: Event): Link {
    if e == Reader(StoreClosed) then Closing
    else if e == Reader(FailAll) then AllFailed
    else if e == Reader(Snapshot) then Swept
    else link
  }

  /** Steps of the reader thread that are the transport's, not one session's. */
  predicate OfTheLink(e: Event) {
    e.Reader? && (e.r.StoreClosed? || e.r.FailAll? || e.r.Snapshot?)
  }

  // Each thread keeps each part of the invariant.

  lemma ConnectKeepsCount(x: Session, link: Link, e: ConnectStep)
    requires SafeInv(x, link) && ConnectEnabled(x, e)
    ensures CountInv(ConnectApply(x, link, e))
  {
    hide PipeInv, ReleaseInv, SerialInv, DrainInv, Terminal, ApplyOp, Fill, Positions;
  }

  predicate ChangesStage(e: ConnectStep) {
    !e.FillSome? && !e.DrainSome?
  }

  lemma StageMoves(x: Session, link: Link, e: ConnectStep)
    requires KindInv(x) && CountInv(x) && ConnectEnabled(x, e) && ChangesStage(e)
    ensures KindInv(ConnectApply(x, link, e))
  {
    hide Terminal, ApplyOp;
  }

  lemma SameStage(x: Session, y: Session)
    requires KindInv(x) && y.stage == x.stage && y.kind == x.kind && y.armed == x.armed
    ensures KindInv(y)
  {
  }

  lemma ConnectKeepsKind(x: Session, link: Link, e: ConnectStep)
    requires SafeInv(x, link) && ConnectEnabled(x, e)
    ensures KindInv(ConnectApply(x, link, e))
  {
    hide PipeInv, ReleaseInv, SerialInv, DrainInv, CountInv, KindInv;
    if ChangesStage(e) {
      StageMoves(x, link, e);
    } else {
      SameStage(x, ConnectApply(x, link, e));
    }
  }

  lemma ConnectKeepsDrain(x: Session, link: Link, e: ConnectStep)
    requires SafeInv(x, link) && ConnectEnabled(x, e)
    ensures DrainInv(ConnectApply(x, link, e))
  {
    hide PipeInv, ReleaseInv, SerialInv, Terminal, ApplyOp, Fill, Positions;
  }

  lemma ConnectKeepsPipe(x: Session, link: Link, e: ConnectStep)
    requires SafeInv(x, link) && ConnectEnabled(x, e)
    ensures PipeInv(ConnectApply(x, link, e)) && SerialInv(ConnectApply(x, link, e))
  {
    hide ReleaseInv;
  }

  lemma ConnectKeepsRelease(x: Session, link: Link, e: ConnectStep)
    requires SafeInv(x, link) && ConnectEnabled(x, e)
    ensures ReleaseInv(ConnectApply(x, link, e), link)
  {
    hide PipeInv, SerialInv;
  }

  lemma ConnectKeepsSafe(x: Session, link: Link, e: ConnectStep)
    requires SafeInv(x, link) && ConnectEnabled(x, e)
    ensures SafeInv(ConnectApply(x, link, e), link)
  {
    ConnectKeepsCount(x, link, e);
    ConnectKeepsKind(x, link, e);
    ConnectKeepsDrain(x, link, e);
    ConnectKeepsPipe(x, link, e);
    ConnectKeepsRelease(x, link, e);
    hide CountInv, KindInv, DrainInv, PipeInv, ReleaseInv, SerialInv, ConnectEnabled, ConnectApply;
  }

  lemma ReaderKeepsCount(x: Session, link: Link, e: ReaderStep)
    requires SafeInv(x, link) && ReaderEnabled(x, link, e)
    ensures CountInv(ReaderApply(x, link, e))
  {
    hide PipeInv, ReleaseInv, SerialInv, DrainInv, Terminal, ApplyOp, Fill, Positions;
  }

  lemma ReaderKeepsKind(x: Session, link: Link, e: ReaderStep)
    requires SafeInv(x, link) && ReaderEnabled(x, link, e)
    ensures KindInv(ReaderApply(x, link, e))
  {
    hide PipeInv, ReleaseInv, SerialInv, DrainInv, CountInv, Terminal, ApplyOp, Fill, Positions;
  }

  lemma ReaderKeepsDrain(x: Session, link: Link, e: ReaderStep)
    requires SafeInv(x, link) && ReaderEnabled(x, link, e)
    ensures DrainInv(ReaderApply(x, link, e))
  {
    hide PipeInv, ReleaseInv, SerialInv, Terminal, ApplyOp, Fill, Positions;
  }

  lemma ReaderKeepsPipe(x: Session, link: Link, e: ReaderStep)
    requires SafeInv(x, link) && ReaderEnabled(x, link, e)
    ensures PipeInv(ReaderApply(x, link, e)) && SerialInv(ReaderApply(x, link, e))
  {
    hide ReleaseInv;
  }

  lemma ReaderKeepsRelease(x: Session, link: Link, e: ReaderStep)
    requires SafeInv(x, link) && ReaderEnabled(x, link, e)
    ensures ReleaseInv(ReaderApply(x, link, e), LinkAfter(link, Reader(e)))
  {
    hide PipeInv, SerialInv;
  }

  lemma ReaderKeepsSafe(x: Session, link: Link, e: ReaderStep)
    requires SafeInv(x, link) && ReaderEnabled(x, link, e)
    ensures SafeInv(ReaderApply(x, link, e), LinkAfter(link, Reader(e)))
  {
    ReaderKeepsCount(x, link, e);
    ReaderKeepsKind(x, link, e);
    ReaderKeepsDrain(x, link, e);
    ReaderKeepsPipe(x, link, e);
    ReaderKeepsRelease(x, link, e);
    hide CountInv, KindInv, DrainInv, PipeInv, ReleaseInv, SerialInv, ReaderEnabled, ReaderApply;
  }

  lemma AppStaysPut(x: Session, e: AppStep)
    requires AppEnabled(x, e)
    ensures var y := AppApply(x, e);
            y.kind == x.kind && y.stage == x.stage && y.outbound == x.outbound && y.armed == x.armed
  {
    hide ApplyOp, Positions, AppCells;
    match e
    case AskSoError =>
    case ReadSoError =>
    case Bypass(n) =>
    case Call(n) =>
    case Lookup =>
    case TakeSerial =>
    case AppReads(n) =>
    case AppForwards =>
    case AppDrained =>
    case AppSends(n) =>
    case AppReturns =>
    case DirectSends(n) =>
    case DirectReturns =>
  }

  lemma AppKeepsCount(x: Session, link: Link, e: AppStep)
    requires SafeInv(x, link) && AppEnabled(x, e)
    ensures CountInv(AppApply(x, e))
  {
    hide PipeInv, ReleaseInv, SerialInv, DrainInv, Terminal, ApplyOp, Fill, Positions;
  }

  lemma AppKeepsKind(x: Session, link: Link, e: AppStep)
    requires SafeInv(x, link) && AppEnabled(x, e)
    ensures KindInv(AppApply(x, e))
  {
    AppStaysPut(x, e);
    hide PipeInv, ReleaseInv, SerialInv, DrainInv, CountInv, KindInv, AppEnabled, AppApply;
    SameStage(x, AppApply(x, e));
  }

  lemma AppKeepsDrain(x: Session, link: Link, e: AppStep)
    requires SafeInv(x, link) && AppEnabled(x, e)
    ensures DrainInv(AppApply(x, e))
  {
    hide PipeInv, ReleaseInv, SerialInv, Terminal, ApplyOp, Fill, Positions;
  }

  lemma AppKeepsPipe(x: Session, link: Link, e: AppStep)
    requires SafeInv(x, link) && AppEnabled(x, e)
    ensures PipeInv(AppApply(x, e)) && SerialInv(AppApply(x, e))
  {
    hide ReleaseInv;
  }

  lemma AppKeepsRelease(x: Session, link: Link, e: AppStep)
    requires SafeInv(x, link) && AppEnabled(x, e)
    ensures ReleaseInv(AppApply(x, e), link)
  {
    hide PipeInv, SerialInv;
  }

  lemma AppKeepsSafe(x: Session, link: Link, e: AppStep)
    requires SafeInv(x, link) && AppEnabled(x, e)
    ensures SafeInv(AppApply(x, e), link)
  {
    AppKeepsCount(x, link, e);
    AppKeepsKind(x, link, e);
    AppKeepsDrain(x, link, e);
    AppKeepsPipe(x, link, e);
    AppKeepsRelease(x, link, e);
    hide CountInv, KindInv, DrainInv, PipeInv, ReleaseInv, SerialInv, AppEnabled, AppApply;
  }

  lemma PumpKeepsSafe(x: Session, link: Link, e: PumpStep)
    requires SafeInv(x, link) && PumpEnabled(x, e)
    ensures SafeInv(PumpApply(x, e), link)
  {
  }

  // ---- The order of the bytes ------------------------------------------

  lemma {:induction false} AppCellsConcat(p: seq<Cell>, q: seq<Cell>)
    ensures AppCells(p + q) == AppCells(p) + AppCells(q)
  {
    if p == [] {
      assert p + q == q;
    } else {
      var head := if p[0].App? then [p[0]] else [];
      assert (p + q)[0] == p[0] && (p + q)[1..] == p[1..] + q;
      AppCellsConcat(p[1..], q);
      calc {
        AppCells(p + q);
        head + AppCells(p[1..] + q);
        head + (AppCells(p[1..]) + AppCells(q));
        AppCells(p) + AppCells(q);
      }
    }
  }

  lemma InvertedGrows(p: seq<Cell>, q: seq<Cell>)
    requires Inverted(p)
    ensures Inverted(p + q)
  {
    var i, j :| 0 <= i < j < |p| && p[i].App? && p[j].App? && p[j].pos < p[i].pos;
    assert (p + q)[i] == p[i] && (p + q)[j] == p[j];
  }

  /** Neither draining nor filling touches an application byte. */
  lemma FillerIsInvisible(x: Session, y: Session)
    requires AllFiller(x.pipe) && AllFiller(y.pipe)
    requires x.sent == y.sent && x.held == y.held && x.app == y.app
    ensures Line(x) == Line(y)
  {
    AppCellsOf(x.pipe);
    AppCellsOf(y.pipe);
  }

  lemma Rejoin(a: seq<Cell>, p: seq<Cell>, n: nat, c: seq<Cell>)
    requires n <= |p|
    ensures a + p[..n] + p[n..] + c == a + [] + p + c
  {
    assert p[..n] + p[n..] == p;
  }

  lemma MovingKeepsLine(x: Session, y: Session, n: nat)
    requires x.held == [] && n <= |x.pipe| && y.held == x.pipe[..n] && y.pipe == x.pipe[n..]
    requires AllApp(x.pipe) && x.sent == y.sent && x.app == y.app
    ensures Line(y) == Line(x)
  {
    var p := x.pipe;
    assert AllApp(p[n..]);
    assert AppCells(p) == p by { AppCellsOf(p); }
    assert AppCells(p[n..]) == p[n..] by { AppCellsOf(p[n..]); }
    hide AllApp, AppCells, Rest;
    Rejoin(x.sent, p, n, Rest(x.app));
  }

  lemma ForwardingKeepsLine(x: Session, y: Session)
    requires y.sent == x.sent + x.held && y.held == [] && y.pipe == x.pipe && y.app == x.app
    ensures Line(y) == Line(x)
  {
  }

  /** What a step may do to the line: nothing, make it longer, or let a direct send overtake. */
  lemma LineStays(x: Session, y: Session)
    requires LineInv(x) && Line(y) == Line(x) && y.written == x.written && y.overtook == x.overtook
    ensures LineInv(y)
  {
  }

  lemma LineGrows(x: Session, y: Session, n: nat)
    requires LineInv(x) && Line(y) == Line(x) + Positions(x.written, x.written + n)
    requires y.overtook == x.overtook && y.written == x.written + n
    ensures LineInv(y)
  {
    hide Line, Inverted;
    assert Positions(0, x.written) + Positions(x.written, x.written + n) == Positions(0, y.written);
    if x.overtook {
      InvertedGrows(Line(x), Positions(x.written, x.written + n));
    }
  }

  lemma LineOvertaken(x: Session, y: Session)
    requires LineInv(x) && multiset(Line(y)) == multiset(Line(x)) && Inverted(Line(y))
    requires y.written == x.written && y.overtook
    ensures LineInv(y)
  {
  }

  lemma ConnectLine(x: Session, link: Link, e: ConnectStep)
    requires SafeInv(x, link) && ConnectEnabled(x, e)
    ensures Line(ConnectApply(x, link, e)) == Line(x)
  {
    hide ReleaseInv, SerialInv;
    if e.FillSome? || e.DrainSome? {
      FillerIsInvisible(x, ConnectApply(x, link, e));
    }
  }

  lemma ConnectKeepsLine(x: Session, link: Link, e: ConnectStep)
    requires Inv(x, link) && ConnectEnabled(x, e)
    ensures AgeInv(ConnectApply(x, link, e)) && LineInv(ConnectApply(x, link, e))
  {
    hide LineInv, Line, SafeInv;
    ConnectLine(x, link, e);
    LineStays(x, ConnectApply(x, link, e));
  }

  lemma ReaderLine(x: Session, link: Link, e: ReaderStep)
    requires SafeInv(x, link) && ReaderEnabled(x, link, e)
    ensures Line(ReaderApply(x, link, e)) == Line(x)
  {
    hide ReleaseInv, SerialInv;
    if e.ReadFiller? {
      FillerIsInvisible(x, ReaderApply(x, link, e));
    }
  }

  lemma ReaderKeepsLine(x: Session, link: Link, e: ReaderStep)
    requires Inv(x, link) && ReaderEnabled(x, link, e)
    ensures AgeInv(ReaderApply(x, link, e)) && LineInv(ReaderApply(x, link, e))
  {
    hide LineInv, Line, SafeInv;
    ReaderLine(x, link, e);
    LineStays(x, ReaderApply(x, link, e));
  }

  lemma PumpLine(x: Session, link: Link, e: PumpStep)
    requires SafeInv(x, link) && PumpEnabled(x, e)
    ensures Line(PumpApply(x, e)) == Line(x)
  {
    hide ReleaseInv;
    var y := PumpApply(x, e);
    match e
    case PumpReads(n) => MovingKeepsLine(x, y, n);
    case PumpForwards => ForwardingKeepsLine(x, y);
    case _ =>
  }

  lemma PumpKeepsLine(x: Session, link: Link, e: PumpStep)
    requires Inv(x, link) && PumpEnabled(x, e)
    ensures AgeInv(PumpApply(x, e)) && LineInv(PumpApply(x, e))
  {
    hide LineInv, Line, SafeInv;
    PumpLine(x, link, e);
    LineStays(x, PumpApply(x, e));
  }

  lemma AppKeepsAge(x: Session, link: Link, e: AppStep)
    requires SafeInv(x, link) && AgeInv(x) && AppEnabled(x, e)
    ensures AgeInv(AppApply(x, e))
  {
    hide GateInv, ReleaseInv;
  }

  lemma AppReadsLine(x: Session, link: Link, n: nat)
    requires SafeInv(x, link) && AppEnabled(x, AppReads(n))
    ensures Line(AppApply(x, AppReads(n))) == Line(x)
  {
    assert AllApp(x.pipe);
    hide SafeInv, Line, AllApp;
    MovingKeepsLine(x, AppApply(x, AppReads(n)), n);
  }

  lemma AppSendsLine(x: Session, link: Link, n: nat)
    requires SafeInv(x, link) && AppEnabled(x, AppSends(n))
    ensures Line(AppApply(x, AppSends(n))) == Line(x)
  {
    assert x.pipe == [] && x.held == [];
    hide SafeInv, Line, Positions;
    NothingIsNoCells(x.pipe);
    SendingInOrder(x, AppApply(x, AppSends(n)), n);
  }

  lemma AppForwardsLine(x: Session)
    requires AppEnabled(x, AppForwards)
    ensures Line(AppApply(x, AppForwards)) == Line(x)
  {
    hide Line;
    ForwardingKeepsLine(x, AppApply(x, AppForwards));
  }

  lemma ReturningLine(x: Session, e: AppStep)
    requires AppEnabled(x, e) && (e.AppReturns? || e.DirectReturns?)
    ensures Line(AppApply(x, e)) == Line(x)
  {
    hide Line;
    NothingLeft(x, AppApply(x, e));
  }

  predicate OnlyLooks(e: AppStep) {
    e.AskSoError? || e.ReadSoError? || e.Lookup? || e.TakeSerial? || e.AppDrained?
  }

  lemma LookingMovesNothing(x: Session, e: AppStep)
    requires AppEnabled(x, e) && OnlyLooks(e)
    ensures var y := AppApply(x, e);
            && y.sent == x.sent && y.held == x.held && y.pipe == x.pipe
            && (y.app == x.app || (!x.app.AIdle? && !y.app.AIdle? && y.app.lo == x.app.lo && y.app.hi == x.app.hi))
  {
    hide Positions, AppCells, ApplyOp;
    match e
    case AskSoError =>
    case ReadSoError =>
    case Lookup =>
    case TakeSerial =>
    case AppDrained =>
  }

  lemma LookingLine(x: Session, e: AppStep)
    requires AppEnabled(x, e) && OnlyLooks(e)
    ensures Line(AppApply(x, e)) == Line(x)
  {
    hide Line, Rest, AppEnabled, AppApply;
    LookingMovesNothing(x, e);
    if AppApply(x, e).app != x.app {
      SameRest(x.app, AppApply(x, e).app);
    }
    SameLine(x, AppApply(x, e));
  }

  lemma SameRest(a: AppAt, b: AppAt)
    requires !a.AIdle? && !b.AIdle? && a.lo == b.lo && a.hi == b.hi
    ensures Rest(a) == Rest(b)
  {
  }

  lemma AppLine(x: Session, link: Link, e: AppStep)
    requires SafeInv(x, link) && AppEnabled(x, e)
    requires !e.Bypass? && !e.Call? && !e.DirectSends?
    ensures Line(AppApply(x, e)) == Line(x)
  {
    hide SafeInv, Line, AppEnabled, AppApply;
    if e.AppReads? {
      AppReadsLine(x, link, e.n);
    } else if e.AppSends? {
      AppSendsLine(x, link, e.n);
    } else if e.AppForwards? {
      AppForwardsLine(x);
    } else if OnlyLooks(e) {
      LookingLine(x, e);
    } else {
      ReturningLine(x, e);
    }
  }

  lemma NothingIsNoCells(p: seq<Cell>)
    ensures p == [] ==> AppCells(p) == []
  {
  }

  lemma SameLine(x: Session, y: Session)
    requires y.sent == x.sent && y.held == x.held && y.pipe == x.pipe && Rest(y.app) == Rest(x.app)
    ensures Line(y) == Line(x)
  {
  }

  lemma DirectKeepsLine(x: Session, link: Link, n: nat)
    requires Inv(x, link) && AppEnabled(x, DirectSends(n))
    ensures LineInv(AppApply(x, DirectSends(n)))
  {
    hide LineInv, Line, Inverted, GateInv, PipeInv, ReleaseInv;
    var y := AppApply(x, DirectSends(n));
    if x.held == [] && AppCells(x.pipe) == [] {
      SendingInOrder(x, y, n);
      LineStays(x, y);
    } else {
      OvertakingInverts(x, y, n);
      OvertakingConserves(x, y, n);
      LineOvertaken(x, y);
    }
  }

  lemma AppKeepsLine(x: Session, link: Link, e: AppStep)
    requires Inv(x, link) && AppEnabled(x, e)
    ensures LineInv(AppApply(x, e))
  {
    hide LineInv, Line, SafeInv, AgeInv;
    if e.Bypass? {
      BypassExtendsLine(x, e.n);
      LineGrows(x, AppApply(x, e), e.n);
    } else if e.Call? {
      CallExtendsLine(x, e.n);
      LineGrows(x, AppApply(x, e), e.n);
    } else if e.DirectSends? {
      DirectKeepsLine(x, link, e.n);
    } else {
      AppLine(x, link, e);
      LineStays(x, AppApply(x, e));
    }
  }

  lemma NothingLeft(x: Session, y: Session)
    requires !x.app.AIdle? && x.app.lo == x.app.hi && y == x.(app := AIdle)
    ensures Line(y) == Line(x)
  {
    assert Rest(x.app) == [];
  }

  lemma CallExtendsLine(x: Session, n: nat)
    requires AppEnabled(x, Call(n))
    ensures Line(AppApply(x, Call(n))) == Line(x) + Positions(x.written, x.written + n)
  {
  }

  /** A bypassed write of `n` bytes lengthens the pipe, and so the line, by just those bytes. */
  lemma BypassExtendsLine(x: Session, n: nat)
    requires AppEnabled(x, Bypass(n))
    ensures Line(AppApply(x, Bypass(n))) == Line(x) + Positions(x.written, x.written + n)
  {
    var more := Positions(x.written, x.written + n);
    assert AllApp(more);
    AppCellsOf(more);
    AppCellsConcat(x.pipe, more);
    hide AppCells, Positions, AllApp;
    assert x.sent + x.held + (AppCells(x.pipe) + more) + [] == x.sent + x.held + AppCells(x.pipe) + [] + more;
  }

  lemma SendingInOrder(x: Session, y: Session, n: nat)
    requires x.held == [] && AppCells(x.pipe) == [] && !x.app.AIdle? && !y.app.AIdle?
    requires x.app.lo + n <= x.app.hi && y.app.lo == x.app.lo + n && y.app.hi == x.app.hi
    requires y.pipe == x.pipe && y.held == x.held
    requires y.sent == x.sent + Positions(x.app.lo, x.app.lo + n)
    ensures Line(y) == Line(x)
  {
    assert Rest(x.app) == Positions(x.app.lo, x.app.lo + n) + Rest(y.app);
  }

  lemma {:induction false} AppCellsBefore(p: seq<Cell>, n: nat)
    requires Before(p, n)
    ensures forall c | c in AppCells(p) :: c.App? && c.pos < n
  {
    if p != [] {
      assert p[0] in p;
      AppCellsBefore(p[1..], n);
    }
  }

  lemma OvertakingInverts(x: Session, y: Session, n: nat)
    requires !x.app.AIdle? && !y.app.AIdle?
    requires 1 <= n && x.app.lo + n <= x.app.hi
    requires x.held != [] || AppCells(x.pipe) != []
    requires AllApp(x.held) && Before(x.held, x.app.lo) && Before(x.pipe, x.app.lo)
    requires y.pipe == x.pipe && y.held == x.held
    requires y.sent == x.sent + Positions(x.app.lo, x.app.lo + n)
    ensures Inverted(Line(y))
  {
    AppCellsBefore(x.pipe, x.app.lo);
    var i := |x.sent|;
    var j := |y.sent|;
    assert Line(y)[i] == App(x.app.lo);
    var first := if x.held != [] then x.held[0] else AppCells(x.pipe)[0];
    assert Line(y)[j] == first;
    assert first in x.held || first in AppCells(x.pipe);
  }

  lemma OvertakingConserves(x: Session, y: Session, n: nat)
    requires !x.app.AIdle? && !y.app.AIdle?
    requires x.app.lo + n <= x.app.hi && y.app.lo == x.app.lo + n && y.app.hi == x.app.hi
    requires y.pipe == x.pipe && y.held == x.held
    requires y.sent == x.sent + Positions(x.app.lo, x.app.lo + n)
    ensures multiset(Line(y)) == multiset(Line(x))
  {
    var more := Positions(x.app.lo, x.app.lo + n);
    assert Rest(x.app) == more + Rest(y.app);
    hide Rest, AppCells;
    Shuffle(x.sent, x.held, AppCells(x.pipe), more, Rest(y.app));
  }

  lemma Shuffle(a: seq<Cell>, b: seq<Cell>, c: seq<Cell>, m: seq<Cell>, r: seq<Cell>)
    ensures multiset(a + m + b + c + r) == multiset(a + b + c + (m + r))
  {
  }

  /** Every step of every thread keeps the invariant of a session. */
  lemma StepKeepsInv(x: Session, link: Link, e: Event)
    requires Inv(x, link) && Enabled(x, link, e)
    ensures Inv(Apply(x, link, e), LinkAfter(link, e))
  {
    hide SafeInv, AgeInv, LineInv, ConnectApply, ReaderApply, AppApply, PumpApply,
         ConnectEnabled, ReaderEnabled, AppEnabled, PumpEnabled;
    match e
    case Connector(c) =>
      ConnectKeepsSafe(x, link, c);
      ConnectKeepsLine(x, link, c);
    case Reader(r) =>
      ReaderKeepsSafe(x, link, r);
      ReaderKeepsLine(x, link, r);
    case Application(a) =>
      AppKeepsSafe(x, link, a);
      AppKeepsAge(x, link, a);
      AppKeepsLine(x, link, a);
    case Pump(p) =>
      PumpKeepsSafe(x, link, p);
      PumpKeepsLine(x, link, p);
  }

  // ---- All sessions together -------------------------------------------

  /** Every session of one client, with the transport they share. */
  datatype System = System(sessions: map<Handle, Session>, link: Link)

  /** One step of the whole: a new handle, a step at one handle, or the end of the transport. */
  datatype Move = Open(h: Handle, kind: Kind, cap: nat) | At(h: Handle, e: Event) | LinkCloses | LinkFails | GatesListed

  predicate MoveEnabled(s: System, m: Move) {
    match m
    case Open(h, kind, cap) => h !in s.sessions
    case At(h, e) =>
      && h in s.sessions && !OfTheLink(e)
      && Enabled(s.sessions[h], s.link, e)
      // one reader thread and one pump thread serve every session
      && (e.Reader? ==> forall k | k in s.sessions && k != h :: s.sessions[k].reader.RAway?)
      && (e.Pump? ==> forall k | k in s.sessions && k != h :: s.sessions[k].pump.PAway?)
    case LinkCloses =>
      s.link.Up? && forall k | k in s.sessions :: Enabled(s.sessions[k], s.link, Reader(StoreClosed))
    case LinkFails =>
      s.link.Closing? && forall k | k in s.sessions :: Enabled(s.sessions[k], s.link, Reader(FailAll))
    case GatesListed =>
      s.link.AllFailed? && forall k | k in s.sessions :: Enabled(s.sessions[k], s.link, Reader(Snapshot))
  }

  function MoveApply(s: System, m: Move): System
    requires MoveEnabled(s, m)
  {
    match m
    case Open(h, kind, cap) => s.(sessions := s.sessions[h := Fresh(kind, None, cap)])
    case At(h, e) => s.(sessions := s.sessions[h := Apply(s.sessions[h], s.link, e)])
    case LinkCloses =>
      System(map k | k in s.sessions :: Apply(s.sessions[k], s.link, Reader(StoreClosed)), Closing)
    case LinkFails =>
      System(map k | k in s.sessions :: Apply(s.sessions[k], s.link, Reader(FailAll)), AllFailed)
    case GatesListed =>
      System(map k | k in s.sessions :: Apply(s.sessions[k], s.link, Reader(Snapshot)), Swept)
  }

  /** The state after `moves`, or `None` if one of them could not happen. */
  function Run(moves: seq<Move>): Option<System>
    decreases |moves|
  {
    if moves == [] then Some(System(map[], Up))
    else
      var n := |moves| - 1;
      var before := Run(moves[..n]);
      if before.Some? && MoveEnabled(before.value, moves[n])
      then Some(MoveApply(before.value, moves[n]))
      else None
  }

  predicate SystemInv(s: System) {
    forall h | h in s.sessions :: Inv(s.sessions[h], s.link)
  }

  lemma FreshSession(kind: Kind, link: Link, cap: nat)
    ensures Inv(Fresh(kind, None, cap), link)
  {
    assert Line(Fresh(kind, None, cap)) == [];
  }

  lemma MoveKeepsInv(s: System, m: Move)
    requires SystemInv(s) && MoveEnabled(s, m)
    ensures SystemInv(MoveApply(s, m))
  {
    hide Inv, Enabled, Apply;
    match m
    case Open(h, kind, cap) => FreshSession(kind, s.link, cap);
    case At(h, e) => StepKeepsInv(s.sessions[h], s.link, e);
    case LinkCloses =>
      forall k | k in s.sessions ensures Inv(MoveApply(s, m).sessions[k], Closing) {
        StepKeepsInv(s.sessions[k], s.link, Reader(StoreClosed));
      }
    case LinkFails =>
      forall k | k in s.sessions ensures Inv(MoveApply(s, m).sessions[k], AllFailed) {
        StepKeepsInv(s.sessions[k], s.link, Reader(FailAll));
      }
    case GatesListed =>
      forall k | k in s.sessions ensures Inv(MoveApply(s, m).sessions[k], Swept) {
        StepKeepsInv(s.sessions[k], s.link, Reader(Snapshot));
      }
  }

  lemma {:induction false} RunKeepsInv(moves: seq<Move>)
    requires Run(moves).Some?
    ensures SystemInv(Run(moves).value)
    decreases |moves|
  {
    hide SystemInv, MoveEnabled, MoveApply;
    if moves == [] {
      assert SystemInv(System(map[], Up)) by { InitialSystem(); }
    } else {
      var n := |moves| - 1;
      RunKeepsInv(moves[..n]);
      MoveKeepsInv(Run(moves[..n]).value, moves[n]);
    }
  }

  lemma InitialSystem()
    ensures SystemInv(System(map[], Up))
  {
  }

  /** Handle `h` is in state `x` after `moves`, with the transport at `link`. */
  predicate Reaches(moves: seq<Move>, h: Handle, x: Session, link: Link) {
    && Run(moves).Some?
    && h in Run(moves).value.sessions
    && x == Run(moves).value.sessions[h] && link == Run(moves).value.link
  }

  lemma ReachedInv(moves: seq<Move>, h: Handle, x: Session, link: Link)
    requires Reaches(moves, h, x, link)
    ensures Inv(x, link)
  {
    RunKeepsInv(moves);
  }

  // ---- What every run guarantees ---------------------------------------

  /**
   Gate release: once the registry holds a terminal state for the handle and
   neither thread is between its two steps, no gate is armed.
   */
  lemma GateIsReleased(moves: seq<Move>, h: Handle, x: Session, link: Link)
    requires Reaches(moves, h, x, link)
    requires Terminal(x.entry)
    requires !x.stage.GateUp? && !x.stage.GateFound?
    requires !x.reader.RMustResolve? && !link.AllFailed? && !x.listed
    ensures !x.gate
  {
    ReachedInv(moves, h, x, link);
  }

  /** Each gate is drained by at most one thread, and exactly one once it is gone. */
  lemma GateIsDrainedOnce(moves: seq<Move>, h: Handle, x: Session, link: Link)
    requires Reaches(moves, h, x, link)
    ensures x.armed <= 1
    ensures x.drains == if x.gate then 0 else x.armed
    ensures !(x.stage.Draining? && x.reader.RDraining?)
  {
    ReachedInv(moves, h, x, link);
  }

  /**
   On every path no filler byte reaches RHP send, no application byte is thrown
   away by a drain loop, and a pipe the pump may read holds only application bytes.
   */
  lemma FillerNeverLeaks(moves: seq<Move>, h: Handle, x: Session, link: Link)
    requires Reaches(moves, h, x, link)
    ensures AllApp(x.sent) && AllApp(x.held) && AllFiller(x.discarded)
    ensures x.outbound ==> AllApp(x.pipe) && !x.gate
  {
    ReachedInv(moves, h, x, link);
  }

  /** A finished drain loop is always followed by the outbound registration. */
  lemma ReleaseLeadsToForwarding(moves: seq<Move>, h: Handle, x: Session, link: Link)
    requires Reaches(moves, h, x, link)
    requires x.released && !x.stage.Drained? && !x.reader.RDrained?
    ensures x.outbound
  {
    ReachedInv(moves, h, x, link);
  }

  /** While its gate is armed the fd is not writable: the pipe holds all it takes. */
  lemma GatedFdIsNotWritable(moves: seq<Move>, h: Handle, x: Session, link: Link)
    requires Reaches(moves, h, x, link) && x.gate
    ensures |x.pipe| >= x.cap && AllFiller(x.pipe)
  {
    ReachedInv(moves, h, x, link);
  }

  /** The wait of a blocking connect has succeeded for `h`. */
  predicate Waited(moves: seq<Move>, h: Handle) {
    At(h, Connector(WaitOk)) in moves
  }

  /** A blocking session is registered, or about to be, exactly if its wait has succeeded. */
  predicate WaitTells(x: Session, waited: bool) {
    x.kind.Blocking? ==>
      && (waited <==> x.stage.LinkUp? || x.outbound)
      && (x.outbound ==> x.stage.Returned?)
  }

  lemma ConnectWaitTells(x: Session, link: Link, e: ConnectStep, waited: bool)
    requires GateInv(x) && ConnectEnabled(x, e) && WaitTells(x, waited)
    ensures WaitTells(ConnectApply(x, link, e), waited || e.WaitOk?)
  {
    hide Terminal, ApplyOp, Fill;
  }

  lemma ReaderWaitTells(x: Session, link: Link, e: ReaderStep, waited: bool)
    requires GateInv(x) && ReaderEnabled(x, link, e) && WaitTells(x, waited)
    ensures WaitTells(ReaderApply(x, link, e), waited)
  {
    hide ApplyOp;
  }

  /** The application and the pump thread touch neither the stage nor the registration. */
  lemma OthersWaitTells(x: Session, e: Event, link: Link, waited: bool)
    requires Enabled(x, link, e) && (e.Application? || e.Pump?) && WaitTells(x, waited)
    ensures WaitTells(Apply(x, link, e), waited)
  {
    hide ConnectEnabled, ReaderEnabled, AppEnabled, PumpEnabled, ConnectApply, ReaderApply, AppApply, PumpApply,
         WaitTells;
    if e.Application? {
      AppStaysPut(x, e.a);
    } else {
      PumpStaysPut(x, e.p);
    }
    SamePlace(x, Apply(x, link, e), waited);
  }

  lemma SamePlace(x: Session, y: Session, waited: bool)
    requires WaitTells(x, waited) && y.kind == x.kind && y.stage == x.stage && y.outbound == x.outbound
    ensures WaitTells(y, waited)
  {
  }

  lemma PumpStaysPut(x: Session, e: PumpStep)
    requires PumpEnabled(x, e)
    ensures var y := PumpApply(x, e); y.kind == x.kind && y.stage == x.stage && y.outbound == x.outbound
  {
    match e
    case PumpLooksUp =>
    case PumpLocks =>
    case PumpReads(n) =>
    case PumpForwards =>
    case PumpUnlocks =>
  }

  lemma StepWaitTells(x: Session, link: Link, e: Event, waited: bool)
    requires Inv(x, link) && Enabled(x, link, e) && WaitTells(x, waited)
    ensures WaitTells(Apply(x, link, e), waited || e == Connector(WaitOk))
  {
    hide ConnectEnabled, ReaderEnabled, AppEnabled, PumpEnabled, ConnectApply, ReaderApply, AppApply, PumpApply,
         WaitTells, GateInv, PipeInv, ReleaseInv, SerialInv, LineInv, AgeInv;
    match e
    case Connector(c) => ConnectWaitTells(x, link, c, waited);
    case Reader(r) => ReaderWaitTells(x, link, r, waited);
    case Application(a) => OthersWaitTells(x, e, link, waited);
    case Pump(p) => OthersWaitTells(x, e, link, waited);
  }

  lemma MoveWaitTells(s: System, m: Move, before: seq<Move>, h: Handle)
    requires SystemInv(s) && MoveEnabled(s, m) && h in MoveApply(s, m).sessions
    requires h !in s.sessions ==> !Waited(before, h)
    requires h in s.sessions ==> WaitTells(s.sessions[h], Waited(before, h))
    ensures WaitTells(MoveApply(s, m).sessions[h], Waited(before + [m], h))
  {
    hide Inv, Enabled, Apply, WaitTells;
    assert Waited(before + [m], h) <==> Waited(before, h) || m == At(h, Connector(WaitOk));
    match m
    case Open(k, kind, cap) =>
      if h == k {
        FreshWaitTells(kind, cap);
      }
    case At(k, e) =>
      if k == h {
        StepWaitTells(s.sessions[h], s.link, e, Waited(before, h));
      }
    case LinkCloses => StepWaitTells(s.sessions[h], s.link, Reader(StoreClosed), Waited(before, h));
    case LinkFails => StepWaitTells(s.sessions[h], s.link, Reader(FailAll), Waited(before, h));
    case GatesListed => StepWaitTells(s.sessions[h], s.link, Reader(Snapshot), Waited(before, h));
  }

  lemma FreshWaitTells(kind: Kind, cap: nat)
    ensures WaitTells(Fresh(kind, None, cap), false)
  {
  }

  predicate SystemWaitTells(s: System, moves: seq<Move>, h: Handle) {
    if h in s.sessions then WaitTells(s.sessions[h], Waited(moves, h)) else !Waited(moves, h)
  }

  lemma SystemMoveWaitTells(s: System, m: Move, before: seq<Move>, h: Handle)
    requires SystemInv(s) && MoveEnabled(s, m) && SystemWaitTells(s, before, h)
    ensures SystemWaitTells(MoveApply(s, m), before + [m], h)
  {
    hide MoveApply, MoveEnabled, WaitTells, SystemInv, Waited;
    WaitedSnoc(before, m, h);
    HandlesStay(s, m, h);
    if h in MoveApply(s, m).sessions {
      MoveWaitTells(s, m, before, h);
    }
  }

  lemma {:induction false} RunWaitTells(moves: seq<Move>, h: Handle)
    requires Run(moves).Some?
    ensures SystemWaitTells(Run(moves).value, moves, h)
    decreases |moves|
  {
    hide MoveApply, MoveEnabled, SystemInv;
    if moves != [] {
      hide SystemWaitTells;
      var n := |moves| - 1;
      RunWaitTells(moves[..n], h);
      RunKeepsInv(moves[..n]);
      SystemMoveWaitTells(Run(moves[..n]).value, moves[n], moves[..n], h);
      assert moves == moves[..n] + [moves[n]];
    }
  }

  lemma WaitedSnoc(moves: seq<Move>, m: Move, h: Handle)
    ensures Waited(moves + [m], h) <==> Waited(moves, h) || m == At(h, Connector(WaitOk))
  {
  }

  lemma HandlesStay(s: System, m: Move, h: Handle)
    requires MoveEnabled(s, m)
    ensures h in s.sessions ==> h in MoveApply(s, m).sessions
    ensures h !in MoveApply(s, m).sessions ==> h !in s.sessions && m != At(h, Connector(WaitOk))
  {
    hide Enabled, Apply;
  }

  /**
   Which sessions the outbound pump has once the application has its fd back: every
   accepted one; a blocking connect exactly if its wait succeeded; a non-blocking
   connect exactly if a drain loop of its gate has finished and been followed up.
   */
  lemma ReturnedIsForwardedIff(moves: seq<Move>, h: Handle, x: Session, link: Link)
    requires Reaches(moves, h, x, link) && x.stage.Returned?
    ensures x.kind.Accepted? ==> x.outbound
    ensures x.kind.Blocking? ==> (x.outbound <==> At(h, Connector(WaitOk)) in moves)
    ensures x.kind.NonBlocking? ==> (x.outbound <==> x.released && !x.reader.RDrained?)
  {
    ReachedInv(moves, h, x, link);
    RunWaitTells(moves, h);
    hide LineInv, AgeInv, PipeInv, ReleaseInv;
  }

  /**
   Outbound order: bytes sent, bytes held by the serial-lock holder, bytes in the
   pipe and the unsent rest of the current write are the application's output in
   program order, exactly when no direct send ever passed bytes still waiting.
   */
  lemma OrderHoldsIff(moves: seq<Move>, h: Handle, x: Session, link: Link)
    requires Reaches(moves, h, x, link)
    ensures Line(x) == Positions(0, x.written) <==> !x.overtook
  {
    ReachedInv(moves, h, x, link);
    PositionsAreInOrder(x.written);
  }

  lemma PositionsAreInOrder(n: nat)
    ensures !Inverted(Positions(0, n))
  {
  }

  // No bypassed write before registration: nothing to overtake.

  /** A pipe of filler alone, and nothing in anybody's hands. */
  predicate NothingWaits(x: Session) {
    x.held == [] && AllFiller(x.pipe)
  }

  predicate Quiet(x: Session) {
    !x.overtook && (!x.outbound || x.app.ADirect? ==> NothingWaits(x))
  }

  lemma ConnectKeepsQuiet(x: Session, link: Link, e: ConnectStep)
    requires SafeInv(x, link) && Quiet(x) && ConnectEnabled(x, e)
    ensures Quiet(ConnectApply(x, link, e))
  {
    hide ReleaseInv;
  }

  lemma ReaderKeepsQuiet(x: Session, link: Link, e: ReaderStep)
    requires SafeInv(x, link) && Quiet(x) && ReaderEnabled(x, link, e)
    ensures Quiet(ReaderApply(x, link, e))
  {
    hide ReleaseInv;
  }

  lemma DirectKeepsQuiet(x: Session, n: nat)
    requires Quiet(x) && AppEnabled(x, DirectSends(n))
    ensures Quiet(AppApply(x, DirectSends(n)))
  {
    hide AllFiller, AppCells, Positions;
    AllFillerIsInvisible(x.pipe);
  }

  lemma RegisteredIsQuiet(y: Session)
    requires !y.overtook && y.outbound && !y.app.ADirect?
    ensures Quiet(y)
  {
  }

  lemma StillQuiet(x: Session, y: Session)
    requires Quiet(x) && y.overtook == x.overtook && y.held == x.held && y.pipe == x.pipe
    requires !y.outbound || y.app.ADirect? ==> !x.outbound || x.app.ADirect?
    ensures Quiet(y)
  {
  }

  lemma AppKeepsQuiet(x: Session, link: Link, e: AppStep)
    requires SafeInv(x, link) && Quiet(x) && AppEnabled(x, e)
    requires e.Bypass? ==> x.outbound
    ensures Quiet(AppApply(x, e))
  {
    assert !x.overtook && (x.app.ADraining? ==> x.outbound);
    hide SafeInv, Quiet, Positions, AppCells, ApplyOp;
    var y := AppApply(x, e);
    match e
    case DirectSends(n) => DirectKeepsQuiet(x, n);
    case Bypass(n) => RegisteredIsQuiet(y);
    case AppReads(n) => RegisteredIsQuiet(y);
    case AppForwards => RegisteredIsQuiet(y);
    case AskSoError => CallKeepsQuiet(x, e);
    case ReadSoError => CallKeepsQuiet(x, e);
    case Call(n) => CallKeepsQuiet(x, e);
    case Lookup => CallKeepsQuiet(x, e);
    case TakeSerial => CallKeepsQuiet(x, e);
    case AppDrained => CallKeepsQuiet(x, e);
    case AppSends(n) => CallKeepsQuiet(x, e);
    case AppReturns => CallKeepsQuiet(x, e);
    case DirectReturns => CallKeepsQuiet(x, e);
  }

  /** The steps inside an interposed call that neither move a byte out of the pipe nor send directly. */
  lemma CallKeepsQuiet(x: Session, e: AppStep)
    requires Quiet(x) && AppEnabled(x, e) && !x.overtook && (x.app.ADraining? ==> x.outbound)
    requires !(e.DirectSends? || e.Bypass? || e.AppReads? || e.AppForwards?)
    ensures Quiet(AppApply(x, e))
  {
    CallMovesNothing(x, e);
    hide Quiet, AppEnabled, AppApply;
    StillQuiet(x, AppApply(x, e));
  }

  lemma CallMovesNothing(x: Session, e: AppStep)
    requires AppEnabled(x, e)
    requires !(e.DirectSends? || e.Bypass? || e.AppReads? || e.AppForwards?)
    ensures var y := AppApply(x, e);
            && y.overtook == x.overtook && y.held == x.held && y.pipe == x.pipe && y.outbound == x.outbound
            && (y.app.ADirect? ==> x.app.ADirect? || !x.outbound)
  {
    hide Positions, AppCells, ApplyOp, Terminal, TakenErrno, SerialFree;
    match e
    case AskSoError =>
    case ReadSoError =>
    case Call(n) =>
    case Lookup =>
    case TakeSerial =>
    case AppDrained =>
    case AppSends(n) =>
    case AppReturns =>
    case DirectReturns =>
  }

  lemma AllFillerIsInvisible(p: seq<Cell>)
    ensures AllFiller(p) ==> AppCells(p) == []
  {
    AppCellsOf(p);
  }

  lemma PumpKeepsQuiet(x: Session, link: Link, e: PumpStep)
    requires SafeInv(x, link) && Quiet(x) && PumpEnabled(x, e)
    ensures Quiet(PumpApply(x, e))
  {
    hide ReleaseInv;
    assert x.pipe != [] ==> x.pipe[0] in x.pipe;
  }

  lemma StepKeepsQuiet(x: Session, link: Link, e: Event)
    requires Inv(x, link) && Quiet(x) && Enabled(x, link, e)
    requires e.Application? && e.a.Bypass? ==> x.outbound
    ensures Quiet(Apply(x, link, e))
  {
    hide SafeInv, AgeInv, LineInv, Quiet, ConnectApply, ReaderApply, AppApply, PumpApply,
         ConnectEnabled, ReaderEnabled, AppEnabled, PumpEnabled;
    match e
    case Connector(c) => ConnectKeepsQuiet(x, link, c);
    case Reader(r) => ReaderKeepsQuiet(x, link, r);
    case Application(a) => AppKeepsQuiet(x, link, a);
    case Pump(p) => PumpKeepsQuiet(x, link, p);
  }

  predicate IsBypass(m: Move, h: Handle) {
    m.At? && m.h == h && m.e.Application? && m.e.a.Bypass?
  }

  /** Every bypassed write at `h` came after the outbound pump had the handle. */
  ghost predicate BypassesWait(moves: seq<Move>, h: Handle) {
    forall i | 0 <= i < |moves| && IsBypass(moves[i], h) ::
      Run(moves[..i]).Some? && h in Run(moves[..i]).value.sessions && Run(moves[..i]).value.sessions[h].outbound
  }

  lemma BypassesWaitedBefore(moves: seq<Move>, h: Handle)
    requires moves != [] && BypassesWait(moves, h)
    ensures BypassesWait(moves[..|moves| - 1], h)
  {
    hide IsBypass;
    var n := |moves| - 1;
    assert forall i | 0 <= i < n :: moves[..n][..i] == moves[..i];
  }

  lemma MoveKeepsQuiet(s: System, m: Move, h: Handle)
    requires SystemInv(s) && MoveEnabled(s, m) && h in MoveApply(s, m).sessions
    requires h in s.sessions ==> Quiet(s.sessions[h]) && (IsBypass(m, h) ==> s.sessions[h].outbound)
    ensures Quiet(MoveApply(s, m).sessions[h])
  {
    hide Inv, Enabled, Apply;
    match m
    case Open(k, kind, cap) =>
    case At(k, e) =>
      if k == h {
        StepKeepsQuiet(s.sessions[h], s.link, e);
      }
    case LinkCloses => StepKeepsQuiet(s.sessions[h], s.link, Reader(StoreClosed));
    case LinkFails => StepKeepsQuiet(s.sessions[h], s.link, Reader(FailAll));
    case GatesListed => StepKeepsQuiet(s.sessions[h], s.link, Reader(Snapshot));
  }

  lemma {:induction false} RunStaysQuiet(moves: seq<Move>, h: Handle)
    requires Run(moves).Some? && h in Run(moves).value.sessions && BypassesWait(moves, h)
    ensures Quiet(Run(moves).value.sessions[h])
    decreases |moves|
  {
    hide Quiet, MoveEnabled, MoveApply, SystemInv;
    if moves != [] {
      var n := |moves| - 1;
      BypassesWaitedBefore(moves, h);
      RunKeepsInv(moves[..n]);
      if h in Run(moves[..n]).value.sessions {
        RunStaysQuiet(moves[..n], h);
      }
      MoveKeepsQuiet(Run(moves[..n]).value, moves[n], h);
    }
  }

  /**
   An application that writes past the interposer only once the pump has the
   handle keeps its program order, whatever else it and the threads do.
   */
  lemma LateBypassesKeepOrder(moves: seq<Move>, h: Handle, x: Session, link: Link)
    requires Reaches(moves, h, x, link) && BypassesWait(moves, h)
    ensures Line(x) == Positions(0, x.written)
  {
    RunStaysQuiet(moves, h);
    OrderHoldsIff(moves, h, x, link);
  }

  /**
   An accepted session is registered before the application has its fd, so its
   order holds without any condition.
   */
  lemma AcceptedSessionsKeepOrder(moves: seq<Move>, h: Handle, x: Session, link: Link)
    requires Reaches(moves, h, x, link)
    requires x.kind.Accepted?
    ensures Line(x) == Positions(0, x.written)
  {
    ReachedInv(moves, h, x, link);
  }

  /**
   Outbound conservation: in every run, overtaken or not, the bytes sent, held,
   waiting and unsent are exactly the application's output, each byte once.
   */
  lemma OutputIsConserved(moves: seq<Move>, h: Handle, x: Session, link: Link)
    requires Reaches(moves, h, x, link)
    ensures multiset(Line(x)) == multiset(Positions(0, x.written))
  {
    ReachedInv(moves, h, x, link);
  }

  /**
   When an ordered write returns, everything written so far has been sent, each
   byte once; and in program order unless a direct send overtook.
   */
  lemma OrderedWriteFlushesEverything(moves: seq<Move>, h: Handle, x: Session, link: Link)
    requires Reaches(moves, h, x, link)
    requires AppEnabled(x, AppReturns)
    ensures multiset(x.sent) == multiset(Positions(0, x.written))
    ensures x.sent == Positions(0, x.written) <==> !x.overtook
  {
    ReachedInv(moves, h, x, link);
    assert Line(x) == x.sent;
    PositionsAreInOrder(x.written);
  }

  /**
   After the transport is gone and both threads are at rest, a non-blocking
   connect's gate is still armed exactly when tracking began after every pending
   connect had been failed and the gate went in after the gates were listed.
   */
  lemma GateSurvivesDisconnectIff(moves: seq<Move>, h: Handle, x: Session, link: Link)
    requires Reaches(moves, h, x, link)
    requires link.Swept? && !x.listed && x.reader.RAway?
    requires x.stage.Returned? && x.kind.NonBlocking?
    ensures x.gate <==> x.lateOpen && x.lateGate
  {
    ReachedInv(moves, h, x, link);
  }

  /** Nobody is inside a step pair on this non-blocking connect. */
  predicate AtRest(x: Session) {
    x.kind.NonBlocking? && x.stage.Returned? && x.reader.RAway? && !x.listed
  }

  /**
   Until the transport's end has failed the pending connects, with both threads
   at rest, the gate is armed exactly when the connect is undecided and no close
   dispatched before set_pending took the gate out.
   */
  lemma LiveGateIsArmedIff(moves: seq<Move>, h: Handle, x: Session, link: Link)
    requires Reaches(moves, h, x, link)
    requires !Down(link) && AtRest(x)
    ensures x.gate <==> !Terminal(x.entry) && !x.slipped
  {
    ReachedInv(moves, h, x, link);
  }

  predicate TrackedIn(moves: seq<Move>, h: Handle) {
    At(h, Connector(SetPendingStep)) in moves
  }

  /** `m` settles `h`'s connect: a status, or a close or the transport's end once tracking has begun. */
  predicate Settles(before: seq<Move>, m: Move, h: Handle) {
    || m == At(h, Reader(Status))
    || (m.At? && m.h == h && m.e.Reader? && m.e.r.Close? && TrackedIn(before, h))
    || (m == LinkFails && TrackedIn(before, h))
  }

  predicate Settled(moves: seq<Move>, h: Handle) {
    exists i | 0 <= i < |moves| :: Settles(moves[..i], moves[i], h)
  }

  lemma SettledSnoc(moves: seq<Move>, m: Move, h: Handle)
    ensures Settled(moves + [m], h) <==> Settled(moves, h) || Settles(moves, m, h)
  {
    hide Settles;
    var all := moves + [m];
    assert all[..|moves|] == moves && all[|moves|] == m;
    assert forall i | 0 <= i < |moves| :: all[..i] == moves[..i] && all[i] == moves[i];
  }

  /** What the entry of `h` says about the moves so far. */
  predicate EntryTells(e: Entry, tracked: bool, settled: bool) {
    && (Terminal(e) <==> settled)
    && (tracked ==> e.Some?)
    && (e == Some(Pending) ==> tracked)
  }

  /** The registry operation that a step is, if it is one. */
  function OpOf(e: Event): Option<Op> {
    if e == Connector(SetPendingStep) then Some(SetPending)
    else if e == Reader(Status) then Some(StatusConnected)
    else if e.Reader? && e.r.Close? then Some(ServerClose(e.r.code))
    else if e == Application(ReadSoError) then Some(TakeError)
    else None
  }

  lemma ConnectEntry(x: Session, link: Link, e: ConnectStep)
    requires ConnectEnabled(x, e)
    ensures ConnectApply(x, link, e).entry == if e.SetPendingStep? then ApplyOp(x.entry, SetPending) else x.entry
  {
    hide ApplyOp;
  }

  lemma AppEntry(x: Session, e: AppStep)
    requires AppEnabled(x, e)
    ensures AppApply(x, e).entry == if e.ReadSoError? then ApplyOp(x.entry, TakeError) else x.entry
  {
    hide ApplyOp, Positions, AppCells;
    match e
    case AskSoError =>
    case ReadSoError =>
    case Bypass(n) =>
    case Call(n) =>
    case Lookup =>
    case TakeSerial =>
    case AppReads(n) =>
    case AppForwards =>
    case AppDrained =>
    case AppSends(n) =>
    case AppReturns =>
    case DirectSends(n) =>
    case DirectReturns =>
  }

  lemma ReaderEntry(x: Session, link: Link, e: ReaderStep)
    requires ReaderEnabled(x, link, e) && !e.FailAll?
    ensures ReaderApply(x, link, e).entry ==
            if e.Status? then ApplyOp(x.entry, StatusConnected)
            else if e.Close? then ApplyOp(x.entry, ServerClose(e.code))
            else x.entry
  {
    hide ApplyOp;
  }

  lemma PumpEntry(x: Session, e: PumpStep)
    requires PumpEnabled(x, e)
    ensures PumpApply(x, e).entry == x.entry
  {
    match e
    case PumpLooksUp =>
    case PumpLocks =>
    case PumpReads(n) =>
    case PumpForwards =>
    case PumpUnlocks =>
  }

  lemma StepEntry(x: Session, link: Link, e: Event)
    requires Enabled(x, link, e) && !OfTheLink(e)
    ensures Apply(x, link, e).entry == if OpOf(e).Some? then ApplyOp(x.entry, OpOf(e).value) else x.entry
  {
    hide ApplyOp, ConnectEnabled, AppEnabled, ReaderEnabled, PumpEnabled,
         ConnectApply, AppApply, ReaderApply, PumpApply;
    match e
    case Connector(c) => ConnectEntry(x, link, c);
    case Reader(r) => ReaderEntry(x, link, r);
    case Application(a) => AppEntry(x, a);
    case Pump(p) => PumpEntry(x, p);
  }

  lemma StepTells(x: Session, link: Link, e: Event, before: seq<Move>, h: Handle, settled: bool)
    requires Enabled(x, link, e) && !OfTheLink(e)
    requires EntryTells(x.entry, TrackedIn(before, h), settled)
    ensures EntryTells(Apply(x, link, e).entry, TrackedIn(before + [At(h, e)], h),
                       settled || Settles(before, At(h, e), h))
  {
    hide Enabled, Apply;
    StepEntry(x, link, e);
    assert TrackedIn(before + [At(h, e)], h) <==> TrackedIn(before, h) || e == Connector(SetPendingStep);
  }

  predicate LinkMove(e: ReaderStep, m: Move) {
    (e.StoreClosed? && m == LinkCloses) || (e.FailAll? && m == LinkFails) || (e.Snapshot? && m == GatesListed)
  }

  lemma LinkEntry(x: Session, link: Link, e: ReaderStep)
    requires ReaderEnabled(x, link, e) && (e.StoreClosed? || e.FailAll? || e.Snapshot?)
    ensures ReaderApply(x, link, e).entry == if e.FailAll? then ApplyOp(x.entry, TransportLost) else x.entry
  {
    hide ApplyOp;
  }

  lemma LinkTells(x: Session, link: Link, e: ReaderStep, before: seq<Move>, m: Move, h: Handle, settled: bool)
    requires ReaderEnabled(x, link, e) && LinkMove(e, m)
    requires EntryTells(x.entry, TrackedIn(before, h), settled)
    ensures EntryTells(ReaderApply(x, link, e).entry, TrackedIn(before + [m], h), settled || Settles(before, m, h))
  {
    LinkEntry(x, link, e);
    hide ReaderEnabled, ReaderApply;
    assert TrackedIn(before + [m], h) <==> TrackedIn(before, h);
  }

  predicate Unheard(moves: seq<Move>, h: Handle) {
    forall m | m in moves && m.At? :: m.h != h
  }

  lemma UnheardIsUnsettled(moves: seq<Move>, h: Handle)
    requires Unheard(moves, h)
    ensures !TrackedIn(moves, h) && !Settled(moves, h)
  {
    forall i | 0 <= i < |moves| ensures !Settles(moves[..i], moves[i], h) {
      assert moves[i] in moves;
      assert forall m | m in moves[..i] :: m in moves;
    }
  }

  lemma MoveTells(s: System, m: Move, before: seq<Move>, h: Handle)
    requires MoveEnabled(s, m)
    requires h !in s.sessions ==> Unheard(before, h)
    requires h in s.sessions ==> EntryTells(s.sessions[h].entry, TrackedIn(before, h), Settled(before, h))
    ensures h !in MoveApply(s, m).sessions ==> Unheard(before + [m], h)
    ensures h in MoveApply(s, m).sessions ==>
              EntryTells(MoveApply(s, m).sessions[h].entry, TrackedIn(before + [m], h), Settled(before + [m], h))
  {
    hide Enabled, Apply, Settles, EntryTells, Settled, TrackedIn;
    SettledSnoc(before, m, h);
    if h in s.sessions {
      var x := s.sessions[h];
      match m
      case Open(k, kind, cap) => OtherTells(x.entry, before, m, h);
      case At(k, e) =>
        if k == h {
          StepTells(x, s.link, e, before, h, Settled(before, h));
        } else {
          OtherTells(x.entry, before, m, h);
        }
      case LinkCloses => Lifted(x, s.link, before, m, h, StoreClosed);
      case LinkFails => Lifted(x, s.link, before, m, h, FailAll);
      case GatesListed => Lifted(x, s.link, before, m, h, Snapshot);
    } else {
      if m.Open? && m.h == h {
        assert Unheard(before + [m], h);
        UnheardIsUnsettled(before + [m], h);
        NothingTold(h);
      }
    }
  }

  lemma NothingTold(h: Handle)
    ensures EntryTells(None, false, false)
  {
  }

  lemma Lifted(x: Session, link: Link, before: seq<Move>, m: Move, h: Handle, e: ReaderStep)
    requires Enabled(x, link, Reader(e)) && LinkMove(e, m)
    requires EntryTells(x.entry, TrackedIn(before, h), Settled(before, h))
    ensures EntryTells(Apply(x, link, Reader(e)).entry, TrackedIn(before + [m], h), Settled(before + [m], h))
  {
    hide Settled, TrackedIn, EntryTells, Settles, ReaderEnabled, ReaderApply;
    SettledSnoc(before, m, h);
    LinkTells(x, link, e, before, m, h, Settled(before, h));
  }

  lemma OtherTells(e: Entry, before: seq<Move>, m: Move, h: Handle)
    requires EntryTells(e, TrackedIn(before, h), Settled(before, h))
    requires m.Open? || (m.At? && m.h != h)
    ensures EntryTells(e, TrackedIn(before + [m], h), Settled(before + [m], h))
  {
    hide Settled, EntryTells;
    SettledSnoc(before, m, h);
    assert TrackedIn(before + [m], h) <==> TrackedIn(before, h);
  }

  lemma {:induction false} RunTells(moves: seq<Move>, h: Handle)
    requires Run(moves).Some?
    ensures h !in Run(moves).value.sessions ==> Unheard(moves, h)
    ensures h in Run(moves).value.sessions ==>
              EntryTells(Run(moves).value.sessions[h].entry, TrackedIn(moves, h), Settled(moves, h))
    decreases |moves|
  {
    if moves != [] {
      hide MoveEnabled, MoveApply, EntryTells, TrackedIn, Settled, Unheard;
      var n := |moves| - 1;
      RunTells(moves[..n], h);
      MoveTells(Run(moves[..n]).value, moves[n], moves[..n], h);
      assert moves == moves[..n] + [moves[n]];
    }
  }

  /** What the registry was told about `h`, as its own operations, in order. */
  function History(moves: seq<Move>, h: Handle): seq<Op>
    decreases |moves|
  {
    if moves == [] then []
    else
      var n := |moves| - 1;
      var m := moves[n];
      History(moves[..n], h) +
        if m.At? && m.h == h && OpOf(m.e).Some? then [OpOf(m.e).value]
        else if m == LinkFails then [TransportLost]
        else []
  }

  /** In every run the entry is what the history of its handle makes of none. */
  lemma {:induction false} EntryIsItsHistory(moves: seq<Move>, h: Handle)
    requires Run(moves).Some?
    ensures ApplyOps(None, History(moves, h)) ==
            if h in Run(moves).value.sessions then Run(moves).value.sessions[h].entry else None
    decreases |moves|
  {
    if moves != [] {
      hide MoveEnabled, MoveApply, ApplyOp, ApplyOps, OpOf;
      var n := |moves| - 1;
      var m, ops := moves[n], History(moves[..n], h);
      EntryIsItsHistory(moves[..n], h);
      MoveHistory(Run(moves[..n]).value, m, h);
      assert ops + [] == ops;
      if m.At? && m.h == h && OpOf(m.e).Some? {
        OneOp(ops, OpOf(m.e).value);
      } else if m == LinkFails {
        OneOp(ops, TransportLost);
      }
    } else {
      assert History(moves, h) == [];
    }
  }

  lemma OneOp(ops: seq<Op>, op: Op)
    ensures ApplyOps(None, ops + [op]) == ApplyOp(ApplyOps(None, ops), op)
  {
    hide ApplyOp;
    OpsInTurn(None, ops, [op]);
    assert [op][1..] == [];
  }

  /** The entry of `h`, `None` before the handle exists. */
  function EntryIn(s: System, h: Handle): Entry {
    if h in s.sessions then s.sessions[h].entry else None
  }

  lemma MoveHistory(s: System, m: Move, h: Handle)
    requires MoveEnabled(s, m)
    ensures EntryIn(MoveApply(s, m), h) ==
            if m.At? && m.h == h && OpOf(m.e).Some? then ApplyOp(EntryIn(s, h), OpOf(m.e).value)
            else if m == LinkFails then ApplyOp(EntryIn(s, h), TransportLost)
            else EntryIn(s, h)
  {
    hide Enabled, Apply, OpOf;
    match m
    case Open(k, kind, cap) =>
    case At(k, e) =>
      StepEntry(s.sessions[k], s.link, e);
    case LinkCloses =>
      if h in s.sessions {
        LinkHistory(s.sessions[h], s.link, StoreClosed);
      }
    case LinkFails =>
      if h in s.sessions {
        LinkHistory(s.sessions[h], s.link, FailAll);
      }
    case GatesListed =>
      if h in s.sessions {
        LinkHistory(s.sessions[h], s.link, Snapshot);
      }
  }

  lemma LinkHistory(x: Session, link: Link, e: ReaderStep)
    requires Enabled(x, link, Reader(e)) && (e.StoreClosed? || e.FailAll? || e.Snapshot?)
    ensures Apply(x, link, Reader(e)).entry == if e.FailAll? then ApplyOp(x.entry, TransportLost) else x.entry
  {
    LinkEntry(x, link, e);
    hide ReaderApply, ReaderEnabled, ApplyOp;
  }

  /**
   A connect is decided exactly when a status was dispatched at any time, or a
   close or the end of the transport after set_pending.
   */
  lemma DecidedIff(moves: seq<Move>, h: Handle, x: Session, link: Link)
    requires Reaches(moves, h, x, link)
    ensures Terminal(x.entry) <==> Settled(moves, h)
  {
    RunTells(moves, h);
  }

  /**
   When a released gate goes with an undecided connect in the registry. Until the
   transport's end has failed the pending connects: exactly when an early close
   took the gate out and nothing has settled the connect. Afterwards: exactly when
   tracking began after that and the gate went in before the gates were listed.
   */
  lemma UndecidedReleaseIff(moves: seq<Move>, h: Handle, x: Session, link: Link)
    requires Reaches(moves, h, x, link) && AtRest(x)
    ensures !Down(link) ==> (!x.gate && !Terminal(x.entry) <==> x.slipped && !Settled(moves, h))
    ensures link.Swept? ==> (!x.gate && !Terminal(x.entry) <==> x.lateOpen && !x.lateGate)
    ensures !Terminal(x.entry) ==> TakenErrno(x.entry) == 0
  {
    ReachedInv(moves, h, x, link);
    DecidedIff(moves, h, x, link);
    hide Settled, LineInv, AgeInv, PipeInv, SerialInv;
  }

  /**
   What a getsockopt(SO_ERROR) answers that starts and ends now. The registry is
   asked only through a client that is not closed; a closed one is replaced by a
   fresh client, which knows no handle, or by none, and both answer 0.
   */
  function SoError(x: Session, link: Link): int {
    if link.Up? then TakenErrno(x.entry) else 0
  }

  /** How a non-blocking connect tells success: the fd is writable and SO_ERROR is 0. */
  predicate LooksEstablished(x: Session, link: Link) {
    !x.gate && SoError(x, link) == 0
  }

  /**
   When a connect looks established, with both threads at rest. On a live link: when
   the registry holds Connected (a status came, or a failure has been read already),
   or an early close took the gate out and nothing has settled the connect. After the
   transport has gone: always, whether it ever was or not, but for the one connect
   whose gate nobody releases.
   */
  lemma LooksEstablishedIff(moves: seq<Move>, h: Handle, x: Session, link: Link)
    requires Reaches(moves, h, x, link) && AtRest(x)
    ensures link.Up? ==>
              (LooksEstablished(x, link) <==> x.entry == Some(Connected) || (x.slipped && !Settled(moves, h)))
    ensures link.Swept? ==> (LooksEstablished(x, link) <==> !(x.lateOpen && x.lateGate))
    ensures LooksEstablished(x, link) ==> x.outbound && AllApp(x.pipe)
  {
    ReachedInv(moves, h, x, link);
    DecidedIff(moves, h, x, link);
    FailuresTell(moves, h);
    hide Settled, LineInv, AgeInv, SerialInv;
  }

  lemma {:induction false} FailuresTell(moves: seq<Move>, h: Handle)
    requires Run(moves).Some?
    ensures h in Run(moves).value.sessions ==> Honest(Run(moves).value.sessions[h].entry)
    decreases |moves|
  {
    if moves != [] {
      hide MoveEnabled, MoveApply, Honest;
      var n := |moves| - 1;
      FailuresTell(moves[..n], h);
      if h in Run(moves).value.sessions {
        MoveStaysHonest(Run(moves[..n]).value, moves[n], h);
      }
    }
  }

  lemma MoveStaysHonest(s: System, m: Move, h: Handle)
    requires MoveEnabled(s, m) && h in MoveApply(s, m).sessions
    requires h in s.sessions ==> Honest(s.sessions[h].entry)
    ensures Honest(MoveApply(s, m).sessions[h].entry)
  {
    hide Enabled, Apply;
    match m
    case Open(k, kind, cap) =>
    case At(k, e) =>
      if k == h {
        StepEntry(s.sessions[h], s.link, e);
      }
    case LinkCloses => LinkStaysHonest(s.sessions[h], s.link, StoreClosed);
    case LinkFails => LinkStaysHonest(s.sessions[h], s.link, FailAll);
    case GatesListed => LinkStaysHonest(s.sessions[h], s.link, Snapshot);
  }

  lemma LinkStaysHonest(x: Session, link: Link, e: ReaderStep)
    requires Enabled(x, link, Reader(e)) && (e.StoreClosed? || e.FailAll? || e.Snapshot?) && Honest(x.entry)
    ensures Honest(Apply(x, link, Reader(e)).entry)
  {
  }

  // ---- Bypassed bytes go out -------------------------------------------

  predicate OthersAway(moves: seq<Move>, h: Handle) {
    Run(moves).Some? && forall k | k in Run(moves).value.sessions && k != h :: Run(moves).value.sessions[k].pump.PAway?
  }

  lemma ThenPump(moves: seq<Move>, h: Handle, x: Session, link: Link, p: PumpStep)
    returns (next: seq<Move>, y: Session)
    requires Reaches(moves, h, x, link) && PumpEnabled(x, p) && OthersAway(moves, h)
    ensures next == moves + [At(h, Pump(p))] && y == PumpApply(x, p)
    ensures Reaches(next, h, y, link) && OthersAway(next, h)
  {
    hide PumpEnabled, PumpApply;
    next := Follow(moves, At(h, Pump(p)));
    y := PumpApply(x, p);
  }

  /**
   Whatever waits in a registered session's pipe can be forwarded by the pump alone,
   once nobody holds the serial lock: the pump's next pass sends all of it, in order.
   */
  lemma PumpForwardsWhatWaits(moves: seq<Move>, h: Handle, x: Session, link: Link)
    returns (next: seq<Move>, y: Session)
    requires Reaches(moves, h, x, link) && OthersAway(moves, h)
    requires x.outbound && x.pump.PAway? && SerialFree(x)
    ensures moves <= next && Reaches(next, h, y, link)
    ensures y.sent == x.sent + x.pipe && y.pipe == [] && y.held == [] && y.pump.PAway?
  {
    ReachedInv(moves, h, x, link);
    assert x.held == [];
    hide Reaches, OthersAway, Inv, SerialFree;
    next, y := PumpTakesTheLock(moves, h, x, link);
    if x.pipe != [] {
      next, y := PumpEmpties(next, h, y, link);
    } else {
      assert x.sent + x.pipe == x.sent;
    }
    next, y := ThenPump(next, h, y, link, PumpUnlocks);
  }

  lemma PumpTakesTheLock(moves: seq<Move>, h: Handle, x: Session, link: Link)
    returns (next: seq<Move>, y: Session)
    requires Reaches(moves, h, x, link) && OthersAway(moves, h)
    requires x.outbound && x.pump.PAway? && SerialFree(x)
    ensures moves <= next && Reaches(next, h, y, link) && OthersAway(next, h) && y == x.(pump := PHolds)
  {
    hide Reaches, OthersAway;
    next, y := ThenPump(moves, h, x, link, PumpLooksUp);
    next, y := ThenPump(next, h, y, link, PumpLocks);
  }

  lemma PumpEmpties(moves: seq<Move>, h: Handle, x: Session, link: Link)
    returns (next: seq<Move>, y: Session)
    requires Reaches(moves, h, x, link) && OthersAway(moves, h)
    requires x.pump.PHolds? && x.held == [] && x.pipe != []
    ensures moves <= next && Reaches(next, h, y, link) && OthersAway(next, h)
    ensures y == x.(sent := x.sent + x.pipe, pipe := [])
  {
    hide Reaches, OthersAway;
    next, y := ThenPump(moves, h, x, link, PumpReads(|x.pipe|));
    assert x.pipe[..|x.pipe|] == x.pipe && x.pipe[|x.pipe|..] == [];
    next, y := ThenPump(next, h, y, link, PumpForwards);
  }

  /** An interposed write on a registered session goes through: what waits in the pipe first, then its bytes. */
  lemma OrderedWriteGoesThrough(moves: seq<Move>, h: Handle, x: Session, link: Link, n: nat)
    returns (next: seq<Move>, y: Session)
    requires Reaches(moves, h, x, link) && Enabled(x, link, Application(Call(n)))
    requires x.outbound && SerialFree(x)
    ensures moves <= next && Reaches(next, h, y, link) && y.app.AIdle?
    ensures y.sent == x.sent + x.pipe + Positions(x.written, x.written + n) && y.pipe == []
  {
    ReachedInv(moves, h, x, link);
    assert x.held == [];
    hide Reaches, Inv, SerialFree, Positions;
    next, y := WriteTakesTheLock(moves, h, x, link, n);
    if x.pipe != [] {
      next, y := WriteEmpties(next, h, y, link);
    } else {
      assert x.sent + x.pipe == x.sent;
    }
    next, y := WriteSends(next, h, y, link);
  }

  lemma ThenApp(moves: seq<Move>, h: Handle, x: Session, link: Link, a: AppStep)
    returns (next: seq<Move>, y: Session)
    requires Reaches(moves, h, x, link) && AppEnabled(x, a) && !a.AskSoError?
    ensures next == moves + [At(h, Application(a))] && y == AppApply(x, a) && Reaches(next, h, y, link)
  {
    hide AppEnabled, AppApply;
    next := Follow(moves, At(h, Application(a)));
    y := AppApply(x, a);
  }

  lemma WriteTakesTheLock(moves: seq<Move>, h: Handle, x: Session, link: Link, n: nat)
    returns (next: seq<Move>, y: Session)
    requires Reaches(moves, h, x, link) && AppEnabled(x, Call(n)) && x.outbound && SerialFree(x)
    ensures moves <= next && Reaches(next, h, y, link)
    ensures y == x.(app := ADraining(x.written, x.written + n), written := x.written + n)
  {
    hide Reaches;
    next, y := ThenApp(moves, h, x, link, Call(n));
    next, y := ThenApp(next, h, y, link, Lookup);
    next, y := ThenApp(next, h, y, link, TakeSerial);
  }

  lemma WriteEmpties(moves: seq<Move>, h: Handle, x: Session, link: Link)
    returns (next: seq<Move>, y: Session)
    requires Reaches(moves, h, x, link) && x.app.ADraining? && x.held == [] && x.pipe != []
    ensures moves <= next && Reaches(next, h, y, link)
    ensures y == x.(sent := x.sent + x.pipe, pipe := [])
  {
    hide Reaches;
    next, y := ThenApp(moves, h, x, link, AppReads(|x.pipe|));
    assert x.pipe[..|x.pipe|] == x.pipe && x.pipe[|x.pipe|..] == [];
    next, y := ThenApp(next, h, y, link, AppForwards);
  }

  lemma WriteSends(moves: seq<Move>, h: Handle, x: Session, link: Link)
    returns (next: seq<Move>, y: Session)
    requires Reaches(moves, h, x, link) && x.app.ADraining? && x.held == [] && x.pipe == [] && x.app.lo <= x.app.hi
    ensures moves <= next && Reaches(next, h, y, link) && y.app.AIdle?
    ensures y.sent == x.sent + Positions(x.app.lo, x.app.hi) && y.pipe == []
  {
    hide Reaches, Positions;
    next, y := ThenApp(moves, h, x, link, AppDrained);
    next, y := WriteSendsAll(next, h, y, link);
    next, y := ThenApp(next, h, y, link, AppReturns);
  }

  lemma WriteSendsAll(moves: seq<Move>, h: Handle, x: Session, link: Link)
    returns (next: seq<Move>, y: Session)
    requires Reaches(moves, h, x, link) && x.app.AFlushed? && x.app.lo <= x.app.hi
    ensures moves <= next && Reaches(next, h, y, link)
    ensures y == x.(sent := x.sent + Positions(x.app.lo, x.app.hi), app := AFlushed(x.app.hi, x.app.hi))
  {
    hide Reaches, Positions;
    NoneLeft(x.sent, x.app.lo, x.app.hi);
    if x.app.lo < x.app.hi {
      next, y := ThenApp(moves, h, x, link, AppSends(x.app.hi - x.app.lo));
    } else {
      next, y := moves, x;
    }
  }

  lemma NoneLeft(sent: seq<Cell>, lo: nat, hi: nat)
    requires lo <= hi
    ensures lo == hi ==> sent + Positions(lo, hi) == sent
  {
  }

  // ---- A status opens the fd -------------------------------------------

  predicate ReaderFree(moves: seq<Move>, h: Handle) {
    && Run(moves).Some?
    && forall k | k in Run(moves).value.sessions && k != h :: Run(moves).value.sessions[k].reader.RAway?
  }

  lemma ThenReader(moves: seq<Move>, h: Handle, x: Session, link: Link, r: ReaderStep)
    returns (next: seq<Move>, y: Session)
    requires Reaches(moves, h, x, link) && ReaderEnabled(x, link, r) && ReaderFree(moves, h) && !OfTheLink(Reader(r))
    ensures next == moves + [At(h, Reader(r))] && y == ReaderApply(x, link, r)
    ensures Reaches(next, h, y, link) && ReaderFree(next, h)
  {
    hide ReaderEnabled, ReaderApply;
    next := Follow(moves, At(h, Reader(r)));
    y := ReaderApply(x, link, r);
  }

  /**
   On a live link a status ends the wait of a gated connect by the reader's steps
   alone: its gate is out, its filler gone, its fd writable, SO_ERROR 0, and it is
   registered for forwarding.
   */
  lemma StatusOpensTheFd(moves: seq<Move>, h: Handle, x: Session) returns (next: seq<Move>, y: Session)
    requires Reaches(moves, h, x, Up) && ReaderFree(moves, h) && x.gate && x.reader.RAway?
    ensures moves <= next && Reaches(next, h, y, Up)
    ensures y.entry == Some(Connected) && LooksEstablished(y, Up) && y.outbound && y.pipe == []
    ensures y.sent == x.sent
  {
    hide Reaches, ReaderFree;
    next, y := StatusTakesTheGate(moves, h, x);
    next, y := ReaderEmpties(next, h, y);
    next, y := ThenReader(next, h, y, Up, ReadEnd);
    next, y := ThenReader(next, h, y, Up, ReaderRegisters);
  }

  lemma ReaderEmpties(moves: seq<Move>, h: Handle, x: Session) returns (next: seq<Move>, y: Session)
    requires Reaches(moves, h, x, Up) && ReaderFree(moves, h) && x.reader.RDraining?
    ensures moves <= next && Reaches(next, h, y, Up) && ReaderFree(next, h)
    ensures y == x.(pipe := [], discarded := x.discarded + x.pipe)
  {
    hide Reaches, ReaderFree;
    assert x.pipe[..|x.pipe|] == x.pipe && x.pipe[|x.pipe|..] == [];
    if x.pipe != [] {
      next, y := ThenReader(moves, h, x, Up, ReadFiller(|x.pipe|));
    } else {
      next, y := moves, x;
      assert x.discarded + x.pipe == x.discarded;
    }
  }

  lemma ThenConnector(moves: seq<Move>, h: Handle, x: Session, link: Link, c: ConnectStep)
    returns (next: seq<Move>, y: Session)
    requires Reaches(moves, h, x, link) && ConnectEnabled(x, c)
    ensures next == moves + [At(h, Connector(c))] && y == ConnectApply(x, link, c) && Reaches(next, h, y, link)
    ensures ReaderFree(moves, h) ==> ReaderFree(next, h)
  {
    hide ConnectEnabled, ConnectApply;
    next := Follow(moves, At(h, Connector(c)));
    y := ConnectApply(x, link, c);
  }

  /** A blocking connect about to wait returns when a status comes, up and registered for forwarding. */
  lemma StatusEndsBlockingConnect(moves: seq<Move>, h: Handle, x: Session) returns (next: seq<Move>, y: Session)
    requires Reaches(moves, h, x, Up) && ReaderFree(moves, h)
    requires x.kind.Blocking? && x.stage.Wired? && x.reader.RAway?
    ensures moves <= next && Reaches(next, h, y, Up)
    ensures y.stage.Returned? && y.entry == Some(Connected) && y.outbound && y.pipe == x.pipe
  {
    hide Reaches, ReaderFree;
    next, y := WaitsAndHears(moves, h, x);
    next, y := ThenConnector(next, h, y, Up, WaitOk);
    next, y := ThenConnector(next, h, y, Up, RegisterOutbound);
  }

  lemma WaitsAndHears(moves: seq<Move>, h: Handle, x: Session) returns (next: seq<Move>, y: Session)
    requires Reaches(moves, h, x, Up) && ReaderFree(moves, h)
    requires x.kind.Blocking? && x.stage.Wired? && x.reader.RAway?
    ensures moves <= next && Reaches(next, h, y, Up)
    ensures y == x.(stage := Waiting, entry := Some(Connected), reader := RMustResolve(false))
  {
    hide Reaches, ReaderFree;
    next, y := ThenConnector(moves, h, x, Up, StartWait);
    next, y := ThenReader(next, h, y, Up, Status);
  }

  lemma StatusTakesTheGate(moves: seq<Move>, h: Handle, x: Session) returns (next: seq<Move>, y: Session)
    requires Reaches(moves, h, x, Up) && ReaderFree(moves, h) && x.gate && x.reader.RAway?
    ensures moves <= next && Reaches(next, h, y, Up) && ReaderFree(next, h)
    ensures y == x.(entry := Some(Connected), reader := RDraining, gate := false, drains := x.drains + 1,
                    slipped := false)
  {
    hide Reaches, ReaderFree;
    next, y := ThenReader(moves, h, x, Up, Status);
    next, y := ThenReader(next, h, y, Up, ResolveGate);
  }

  // ---- Runs in which a promise fails -----------------------------------

  /** `moves` leads to a system whose only session is `h`, in state `x`. */
  predicate Alone(moves: seq<Move>, h: Handle, x: Session, link: Link) {
    Run(moves) == Some(System(map[h := x], link))
  }

  lemma Follow(moves: seq<Move>, m: Move) returns (next: seq<Move>)
    requires Run(moves).Some? && MoveEnabled(Run(moves).value, m)
    ensures next == moves + [m] && Run(next) == Some(MoveApply(Run(moves).value, m))
  {
    next := moves + [m];
    assert next[..|next| - 1] == moves;
  }

  lemma OpenAlone(h: Handle, kind: Kind, cap: nat) returns (moves: seq<Move>)
    ensures moves == [Open(h, kind, cap)] && Alone(moves, h, Fresh(kind, None, cap), Up)
  {
    moves := Follow([], Open(h, kind, cap));
  }

  lemma Then(moves: seq<Move>, h: Handle, x: Session, link: Link, e: Event)
    returns (next: seq<Move>, y: Session)
    requires Alone(moves, h, x, link)
    requires Enabled(x, link, e) && !OfTheLink(e)
    ensures next == moves + [At(h, e)]
    ensures y == Apply(x, link, e) && Alone(next, h, y, link)
  {
    next := Follow(moves, At(h, e));
    y := Apply(x, link, e);
    assert Run(next).value.sessions == map[h := y];
  }

  /** The moves in `next` are those in `moves` and some that are no status. */
  predicate Continues(moves: seq<Move>, next: seq<Move>, h: Handle) {
    moves <= next && (At(h, Reader(Status)) in next ==> At(h, Reader(Status)) in moves)
  }

  lemma ContinuesOn(a: seq<Move>, b: seq<Move>, h: Handle, e: ConnectStep)
    requires Continues(a, b, h)
    ensures Continues(a, b + [At(h, Connector(e))], h)
  {
  }

  /** A connecting thread's steps until its fill loop has put one byte of filler in. */
  lemma FillingInBackground(moves: seq<Move>, h: Handle, link: Link) returns (next: seq<Move>, x: Session)
    requires Alone(moves, h, Fresh(NonBlocking, None, 1), link)
    ensures Alone(next, h, x, link) && Continues(moves, next, h)
    ensures x == Fresh(NonBlocking, None, 1).(
                   stage := Filling, entry := Some(Pending), pipe := [Filler], lateOpen := Down(link))
  {
    assert Continues(moves, moves, h);
    hide Alone, Continues;
    next, x := Then(moves, h, Fresh(NonBlocking, None, 1), link, Connector(SetPendingStep));
    ContinuesOn(moves, moves, h, SetPendingStep);
    ContinuesOn(moves, next, h, Wire);
    next, x := Then(next, h, x, link, Connector(Wire));
    ContinuesOn(moves, next, h, StartFill);
    next, x := Then(next, h, x, link, Connector(StartFill));
    ContinuesOn(moves, next, h, FillSome(1));
    next, x := Then(next, h, x, link, Connector(FillSome(1)));
    assert x.pipe == [Filler];
  }

  /** A connecting thread's steps up to its return, when the gate's check finds nothing. */
  lemma ConnectInBackground(moves: seq<Move>, h: Handle, link: Link) returns (next: seq<Move>, x: Session)
    requires Alone(moves, h, Fresh(NonBlocking, None, 1), link)
    ensures Alone(next, h, x, link) && Continues(moves, next, h)
    ensures x == Fresh(NonBlocking, None, 1).(
                   stage := Returned, entry := Some(Pending), gate := true, armed := 1, pipe := [Filler],
                   lateOpen := Down(link), lateGate := link.Swept?)
  {
    next, x := FillingInBackground(moves, h, link);
    hide Alone, Continues;
    ContinuesOn(moves, next, h, InsertGate);
    next, x := Then(next, h, x, link, Connector(InsertGate));
    ContinuesOn(moves, next, h, ReadResult);
    next, x := Then(next, h, x, link, Connector(ReadResult));
  }

  /**
   A non-blocking connect whose openReply was the last frame before the transport
   died: its gate stays armed with no thread left to release it, so the
   application's select for writability never returns.
   */
  lemma LateConnectIsNeverReleased(h: Handle) returns (moves: seq<Move>, x: Session)
    ensures Reaches(moves, h, x, Swept)
    ensures x.gate && x.stage.Returned? && x.reader.RAway? && !x.listed
  {
    moves := DeadTransport(h);
    moves, x := ConnectInBackground(moves, h, Swept);
  }

  lemma DeadTransport(h: Handle) returns (moves: seq<Move>)
    ensures Alone(moves, h, Fresh(NonBlocking, None, 1), Swept)
  {
    moves := OpenAlone(h, NonBlocking, 1);
    hide Alone;
    var x := Fresh(NonBlocking, None, 1);
    moves, x := ThenLink(moves, h, x, Up, StoreClosed, LinkCloses);
    moves, x := ThenLink(moves, h, x, Closing, FailAll, LinkFails);
    moves, x := ThenLink(moves, h, x, AllFailed, Snapshot, GatesListed);
  }

  /**
   The same early close can instead release the gate: the application finds its fd
   writable and SO_ERROR 0, and takes the refused connect for an established one.
   */
  lemma RefusedConnectCanLookUp(h: Handle, code: int) returns (moves: seq<Move>, x: Session)
    ensures [Open(h, NonBlocking, 1), At(h, Reader(Close(code)))] <= moves && Reaches(moves, h, x, Up) && AtRest(x)
    ensures !x.gate && x.armed == 1 && x.pipe == [] && x.entry == Some(Pending) && x.outbound
  {
    moves, x := EarlyCloseInHand(h, code);
    hide Alone;
    moves, x := Then(moves, h, x, Up, Reader(ResolveGate));
    moves, x := Then(moves, h, x, Up, Reader(ReadFiller(1)));
    assert x.pipe == [];
    moves, x := Then(moves, h, x, Up, Reader(ReadEnd));
    moves, x := Then(moves, h, x, Up, Reader(ReaderRegisters));
    AloneReaches(moves, h, x, Up);
  }

  /** The reader has dispatched an early close and not yet looked for a gate; meanwhile connect() returns. */
  lemma EarlyCloseInHand(h: Handle, code: int) returns (moves: seq<Move>, x: Session)
    ensures [Open(h, NonBlocking, 1), At(h, Reader(Close(code)))] <= moves && Alone(moves, h, x, Up)
    ensures x == Fresh(NonBlocking, None, 1).(
                   stage := Returned, entry := Some(Pending), gate := true, armed := 1, pipe := [Filler],
                   reader := RMustResolve(true))
  {
    moves, x := EarlyCloseWhileFilling(h, code);
    hide Alone;
    moves, x := Then(moves, h, x, Up, Connector(InsertGate));
    moves, x := Then(moves, h, x, Up, Connector(ReadResult));
  }

  lemma EarlyCloseWhileFilling(h: Handle, code: int) returns (moves: seq<Move>, x: Session)
    ensures [Open(h, NonBlocking, 1), At(h, Reader(Close(code)))] <= moves && Alone(moves, h, x, Up)
    ensures x == Fresh(NonBlocking, None, 1).(
                   stage := Filling, entry := Some(Pending), pipe := [Filler], reader := RMustResolve(true))
  {
    moves := OpenAlone(h, NonBlocking, 1);
    hide Alone;
    moves, x := Then(moves, h, Fresh(NonBlocking, None, 1), Up, Reader(Close(code)));
    moves, x := Then(moves, h, x, Up, Connector(SetPendingStep));
    moves, x := Then(moves, h, x, Up, Connector(Wire));
    moves, x := Then(moves, h, x, Up, Connector(StartFill));
    moves, x := Then(moves, h, x, Up, Connector(FillSome(1)));
    assert x.pipe == [Filler];
  }

  /** One of the transport's steps, when `h` is the only session. */
  lemma ThenLink(moves: seq<Move>, h: Handle, x: Session, link: Link, e: ReaderStep, m: Move)
    returns (next: seq<Move>, y: Session)
    requires Alone(moves, h, x, link) && LinkMove(e, m) && ReaderEnabled(x, link, e)
    ensures next == moves + [m] && y == ReaderApply(x, link, e)
    ensures Alone(next, h, y, LinkAfter(link, Reader(e)))
  {
    next := Follow(moves, m);
    y := ReaderApply(x, link, e);
    assert Run(next).value.sessions == map[h := y];
  }

  /**
   A connect that is pending when the transport drops: it is failed with
   ECONNRESET, its gate is released, and SO_ERROR answers 0. The failed connect
   looks established.
   */
  lemma DroppedConnectLooksEstablished(h: Handle) returns (moves: seq<Move>, x: Session)
    ensures Reaches(moves, h, x, Swept) && AtRest(x) && LooksEstablished(x, Swept)
    ensures x.entry == Some(Failed(ECONNRESET)) && x.outbound && x.pipe == []
    ensures At(h, Reader(Status)) !in moves
  {
    moves, x := PendingAtTheDrop(h);
    hide Alone;
    moves, x := Then(moves, h, x, Swept, Reader(NextListed));
    moves, x := Then(moves, h, x, Swept, Reader(ResolveGate));
    moves, x := Then(moves, h, x, Swept, Reader(ReadFiller(1)));
    assert x.pipe == [];
    moves, x := Then(moves, h, x, Swept, Reader(ReadEnd));
    moves, x := Then(moves, h, x, Swept, Reader(ReaderRegisters));
    AloneReaches(moves, h, x, Swept);
  }

  lemma PendingAtTheDrop(h: Handle) returns (moves: seq<Move>, x: Session)
    ensures Alone(moves, h, x, Swept) && At(h, Reader(Status)) !in moves
    ensures x == Fresh(NonBlocking, None, 1).(
                   stage := Returned, entry := Some(Failed(ECONNRESET)), gate := true, armed := 1, pipe := [Filler],
                   listed := true)
  {
    moves := OpenAlone(h, NonBlocking, 1);
    moves, x := ConnectInBackground(moves, h, Up);
    hide Alone;
    moves, x := ThenLink(moves, h, x, Up, StoreClosed, LinkCloses);
    moves, x := ThenLink(moves, h, x, Closing, FailAll, LinkFails);
    moves, x := ThenLink(moves, h, x, AllFailed, Snapshot, GatesListed);
  }

  /** A close dispatched, and its gate looked for, before set_pending: the connect stays pending behind its gate. */
  lemma EarlyCloseLeavesGateArmed(h: Handle, code: int) returns (moves: seq<Move>, x: Session)
    ensures [Open(h, NonBlocking, 1), At(h, Reader(Close(code)))] <= moves && Reaches(moves, h, x, Up)
    ensures x.gate && x.stage.Returned? && x.reader.RAway? && x.entry == Some(Pending)
  {
    moves := OpenAlone(h, NonBlocking, 1);
    moves, x := Then(moves, h, Fresh(NonBlocking, None, 1), Up, Reader(Close(code)));
    moves, x := Then(moves, h, x, Up, Reader(ResolveGate));
    moves, x := ConnectInBackground(moves, h, Up);
  }

  /**
   Between the end of the drain loop and the outbound registration the fd is
   writable but unknown to the pump: an interposed write made there passes a
   bypassed one made before it.
   */
  lemma WriteCanOvertake(h: Handle) returns (moves: seq<Move>, x: Session)
    ensures Reaches(moves, h, x, Up)
    ensures x.sent == [App(1)] && x.pipe == [App(0)]
  {
    moves, x := ReleasedByStatus(h);
    hide Alone;
    moves, x := Then(moves, h, x, Up, Application(Bypass(1)));
    assert x.pipe == [App(0)];
    moves, x := Then(moves, h, x, Up, Application(Call(1)));
    moves, x := Then(moves, h, x, Up, Application(Lookup));
    moves, x := Then(moves, h, x, Up, Application(DirectSends(1)));
    assert x.sent == [App(1)];
    AloneReaches(moves, h, x, Up);
  }

  lemma AloneReaches(moves: seq<Move>, h: Handle, x: Session, link: Link)
    requires Alone(moves, h, x, link)
    ensures Reaches(moves, h, x, link)
  {
  }

  lemma ReleasedByStatus(h: Handle) returns (moves: seq<Move>, x: Session)
    ensures Alone(moves, h, x, Up)
    ensures x.app.AIdle? && x.stage.Returned? && x.kind.NonBlocking? && x.released && !x.outbound
    ensures x.pipe == [] && x.written == 0 && x.sent == [] && x.cap == 1
  {
    moves := OpenAlone(h, NonBlocking, 1);
    moves, x := ConnectInBackground(moves, h, Up);
    hide Alone;
    moves, x := Then(moves, h, x, Up, Reader(Status));
    moves, x := Then(moves, h, x, Up, Reader(ResolveGate));
    moves, x := Then(moves, h, x, Up, Reader(ReadFiller(1)));
    assert x.pipe == [];
    moves, x := Then(moves, h, x, Up, Reader(ReadEnd));
  }
}
