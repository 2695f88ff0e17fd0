/**
 The receive pump (crates/ax25-interpose/src/state.rs, `RecvPump`): inbound
 bytes reach the socketpair at once when they fit, wait in a backlog when they do
 not, and are staged when they arrive before the handle is registered.

 The functions here give each operation's effect on the pump's state for a given
 answer of the kernel. RecvPump.dfy performs the operations in place;
 RecvSystem.dfy runs them in every interleaving.
 */
module RecvSpec {
  import opened Bytes

  const EARLY_STAGE_CAP := 256 * 1024

  datatype Pending = Pending(innerFd: Fd, buf: seq<byte>, eof: bool, eofDone: bool)

  datatype PumpState = PumpState(handles: map<Handle, Pending>, early: map<Handle, seq<byte>>)

  /** What one non-blocking write to an inner fd came to. */
  datatype WriteOutcome = Wrote(n: nat) | WouldBlock | Fatal

  /** The answers the kernel can give to a write of `data`. */
  predicate Possible(o: WriteOutcome, data: seq<byte>) {
    o.Wrote? ==> o.n <= |data| && (data != [] ==> 1 <= o.n)
  }

  /** The bytes that a write with outcome `o` put into the socketpair. */
  function Taken(o: WriteOutcome, data: seq<byte>): seq<byte>
    requires Possible(o, data)
  {
    if o.Wrote? then data[..o.n] else []
  }

  function Staged(p: PumpState, h: Handle): seq<byte> {
    if h in p.early then p.early[h] else []
  }

  /** At most the first `n` bytes of `s`. */
  function Take(s: seq<byte>, n: nat): seq<byte> {
    if |s| <= n then s else s[..n]
  }

  /** Staging what fits of more data keeps the first `n` bytes of all of it. */
  lemma TakeMore(s: seq<byte>, data: seq<byte>, n: nat)
    ensures Take(s, n) + Take(data, n - |Take(s, n)|) == Take(s + data, n)
  {
  }

  predicate EntryHasWork(e: Pending) {
    e.buf != [] || (e.eof && !e.eofDone)
  }

  predicate HasWork(p: PumpState) {
    exists h | h in p.handles :: EntryHasWork(p.handles[h])
  }

  function Registered(p: PumpState, h: Handle, fd: Fd): PumpState {
    PumpState(p.handles[h := Pending(fd, Staged(p, h), false, false)], p.early - {h})
  }

  function Unregistered(p: PumpState, h: Handle): PumpState {
    PumpState(p.handles - {h}, p.early - {h})
  }

  /** `push` tries the socketpair only for a registered handle without backlog. */
  predicate PushWrites(p: PumpState, h: Handle, data: seq<byte>) {
    data != [] && h in p.handles && p.handles[h].buf == []
  }

  function Pushed(p: PumpState, h: Handle, data: seq<byte>, o: WriteOutcome): PumpState
    requires Possible(o, data)
  {
    if data == [] then p
    else if h !in p.handles then
      p.(early := p.early[h := Staged(p, h) + Take(data, Room(p, h))])
    else if p.handles[h].buf == [] then
      match o
      case Wrote(n) => p.(handles := p.handles[h := p.handles[h].(buf := data[n..])])
      case WouldBlock => p.(handles := p.handles[h := p.handles[h].(buf := data)])
      case Fatal => p.(handles := p.handles - {h})
    else p.(handles := p.handles[h := p.handles[h].(buf := p.handles[h].buf + data)])
  }

  function Room(p: PumpState, h: Handle): nat {
    if |Staged(p, h)| <= EARLY_STAGE_CAP then EARLY_STAGE_CAP - |Staged(p, h)| else 0
  }

  /** Whether `push` wakes the flusher. */
  predicate PushNotifies(p: PumpState, h: Handle, data: seq<byte>, o: WriteOutcome) {
    && data != [] && h in p.handles
    && (p.handles[h].buf != [] || o.WouldBlock? || (o.Wrote? && o.n < |data|))
  }

  function EofMarked(p: PumpState, h: Handle): PumpState {
    if h in p.handles then p.(handles := p.handles[h := p.handles[h].(eof := true)]) else p
  }

  function AllEof(p: PumpState): PumpState {
    p.(handles := map h | h in p.handles :: p.handles[h].(eof := true))
  }

  /** One turn of `drain_pass`'s inner loop: the first `k` bytes of the backlog are offered. */
  function BacklogWritten(p: PumpState, h: Handle, k: nat, o: WriteOutcome): PumpState
    requires h in p.handles && 1 <= k <= |p.handles[h].buf| && Possible(o, p.handles[h].buf[..k])
  {
    match o
    case Wrote(n) => p.(handles := p.handles[h := p.handles[h].(buf := p.handles[h].buf[n..])])
    case WouldBlock => p
    case Fatal => p.(handles := p.handles - {h})
  }

  predicate EofDue(p: PumpState, h: Handle) {
    h in p.handles && p.handles[h].buf == [] && p.handles[h].eof && !p.handles[h].eofDone
  }

  function EofSent(p: PumpState, h: Handle): PumpState
    requires EofDue(p, h)
  {
    p.(handles := p.handles[h := p.handles[h].(eofDone := true)])
  }

  /** From backlog `was` to backlog `now`, exactly the difference went onto the wire. */
  predicate WentOut(was: seq<byte>, now: seq<byte>, before: seq<byte>, after: seq<byte>) {
    before <= after && after[|before|..] + now == was
  }

  lemma WentOutTwice(was: seq<byte>, mid: seq<byte>, now: seq<byte>, moved: seq<byte>,
                     w0: seq<byte>, w1: seq<byte>)
    requires WentOut(was, mid, w0, w1) && mid == moved + now
    ensures WentOut(was, now, w0, w1 + moved)
  {
    assert (w1 + moved)[|w0|..] == w1[|w0|..] + moved;
    assert w1[|w0|..] + (moved + now) == (w1[|w0|..] + moved) + now;
  }

  /** Whether a pass sends `e`'s EOF, given what is left of its backlog. */
  predicate SendsEof(e: Pending, rest: seq<byte>) {
    rest == [] && e.eof && !e.eofDone
  }

  /**
   What a drain pass may make of entry `was`: `now` is what it leaves in the
   pump, `None` if the socket turned out dead; w0..w1 is the socket's traffic and
   s0..s1 the count of its shutdowns.
   */
  predicate Passed(was: Pending, now: Option<Pending>, w0: seq<byte>, w1: seq<byte>, s0: nat, s1: nat) {
    if now.None? then
      s1 == s0 && w0 <= w1 && w1[|w0|..] < was.buf
    else
      var rest := now.value.buf;
      && WentOut(was.buf, rest, w0, w1)
      && now.value == was.(buf := rest, eofDone := was.eofDone || SendsEof(was, rest))
      && s1 == s0 + if SendsEof(was, rest) then 1 else 0
  }

  function OnWire(wire: map<Fd, seq<byte>>, fd: Fd): seq<byte> {
    if fd in wire then wire[fd] else []
  }

  function ShutCount(shut: map<Fd, nat>, fd: Fd): nat {
    if fd in shut then shut[fd] else 0
  }

  function EntryAt(m: map<Handle, Pending>, h: Handle): Option<Pending> {
    if h in m then Some(m[h]) else None
  }

  /**
   Why a pass left entry `now`: one that is gone met a fatal write, one that still
   has a backlog was told to wait.
   */
  predicate Excused(now: Option<Pending>, answer: Option<WriteOutcome>) {
    && (now.None? ==> answer == Some(Fatal))
    && (now.Some? && now.value.buf != [] ==> answer == Some(WouldBlock))
  }

  function AnswerOn(answers: map<Fd, WriteOutcome>, fd: Fd): Option<WriteOutcome> {
    if fd in answers then Some(answers[fd]) else None
  }

  /** Every handle outside `todo` is excused. */
  predicate AllExcused(todo: set<Handle>, was: map<Handle, Pending>, now: map<Handle, Pending>,
                       answers: map<Fd, WriteOutcome>) {
    forall h | h in was && h !in todo :: Excused(EntryAt(now, h), AnswerOn(answers, was[h].innerFd))
  }

  /** An entry that owes its socket no EOF. */
  predicate EofDone(e: Pending) {
    e.buf == [] && e.eof ==> e.eofDone
  }

  /** After a whole pass the work left is backlogs whose sockets said wait. */
  lemma NobodyIsOwed(was: map<Handle, Pending>, now: map<Handle, Pending>, answers: map<Fd, WriteOutcome>)
    requires now.Keys <= was.Keys && AllExcused({}, was, now, answers)
    requires forall h | h in now :: EofDone(now[h]) && now[h].innerFd == was[h].innerFd
    ensures forall h | h in now && (now[h].buf != [] || (now[h].eof && !now[h].eofDone)) ::
              now[h].buf != [] && AnswerOn(answers, now[h].innerFd) == Some(WouldBlock)
  {
    forall h | h in now && (now[h].buf != [] || (now[h].eof && !now[h].eofDone))
      ensures now[h].buf != [] && AnswerOn(answers, now[h].innerFd) == Some(WouldBlock)
    {
      assert Excused(EntryAt(now, h), AnswerOn(answers, was[h].innerFd));
    }
  }

  lemma ExcuseOneMore(h: Handle, todo: set<Handle>, was: map<Handle, Pending>,
                      now: map<Handle, Pending>, now': map<Handle, Pending>,
                      a1: map<Fd, WriteOutcome>, a2: map<Fd, WriteOutcome>)
    requires Distinct(was) && h in was && AllExcused(todo, was, now, a1)
    requires forall g | g != h :: EntryAt(now', g) == EntryAt(now, g)
    requires forall f | f != was[h].innerFd :: AnswerOn(a1, f) == AnswerOn(a2, f)
    requires Excused(EntryAt(now', h), AnswerOn(a2, was[h].innerFd))
    ensures AllExcused(todo - {h}, was, now', a2)
  {
    hide Excused, EntryAt, AnswerOn;
    forall g | g in was && g !in todo - {h} ensures Excused(EntryAt(now', g), AnswerOn(a2, was[g].innerFd)) {
      if g != h {
        assert Excused(EntryAt(now, g), AnswerOn(a1, was[g].innerFd));
      }
    }
  }

  /** No two live handles share an inner fd. */
  predicate Distinct(m: map<Handle, Pending>) {
    forall g, h | g in m && h in m && g != h :: m[g].innerFd != m[h].innerFd
  }

  predicate PassedAt(h: Handle, was: map<Handle, Pending>, now: map<Handle, Pending>,
                     w0: map<Fd, seq<byte>>, w1: map<Fd, seq<byte>>, s0: map<Fd, nat>, s1: map<Fd, nat>)
    requires h in was
  {
    var fd := was[h].innerFd;
    Passed(was[h], EntryAt(now, h), OnWire(w0, fd), OnWire(w1, fd), ShutCount(s0, fd), ShutCount(s1, fd))
  }

  predicate UntouchedAt(h: Handle, was: map<Handle, Pending>, now: map<Handle, Pending>,
                        w0: map<Fd, seq<byte>>, w1: map<Fd, seq<byte>>, s0: map<Fd, nat>, s1: map<Fd, nat>)
    requires h in was
  {
    var fd := was[h].innerFd;
    && EntryAt(now, h) == Some(was[h])
    && OnWire(w0, fd) == OnWire(w1, fd) && ShutCount(s0, fd) == ShutCount(s1, fd)
  }

  /** A pass that has dealt with every handle outside `todo`. */
  ghost predicate HalfPassed(todo: set<Handle>, was: map<Handle, Pending>, now: map<Handle, Pending>,
                             w0: map<Fd, seq<byte>>, w1: map<Fd, seq<byte>>, s0: map<Fd, nat>, s1: map<Fd, nat>) {
    && todo <= now.Keys <= was.Keys
    && (forall h | h in was && h in todo :: UntouchedAt(h, was, now, w0, w1, s0, s1))
    && (forall h | h in was && h !in todo :: PassedAt(h, was, now, w0, w1, s0, s1))
    && (forall f | (forall h | h in was :: was[h].innerFd != f) ::
          OnWire(w0, f) == OnWire(w1, f) && ShutCount(s0, f) == ShutCount(s1, f))
  }

  lemma PassBegins(was: map<Handle, Pending>, w: map<Fd, seq<byte>>, s: map<Fd, nat>, answers: map<Fd, WriteOutcome>)
    ensures HalfPassed(was.Keys, was, was, w, w, s, s) && AllExcused(was.Keys, was, was, answers)
  {
  }

  lemma StillUntouched(h: Handle, todo: set<Handle>, was: map<Handle, Pending>, now: map<Handle, Pending>,
                       w0: map<Fd, seq<byte>>, w1: map<Fd, seq<byte>>, s0: map<Fd, nat>, s1: map<Fd, nat>)
    requires HalfPassed(todo, was, now, w0, w1, s0, s1) && h in todo
    ensures h in was && h in now && now[h] == was[h]
    ensures OnWire(w0, was[h].innerFd) == OnWire(w1, was[h].innerFd)
    ensures ShutCount(s0, was[h].innerFd) == ShutCount(s1, was[h].innerFd)
  {
    assert UntouchedAt(h, was, now, w0, w1, s0, s1);
  }

  /** Dealing with one more handle touches that handle's entry and socket only. */
  lemma PassOneMore(h: Handle, todo: set<Handle>, was: map<Handle, Pending>,
                    now: map<Handle, Pending>, now': map<Handle, Pending>,
                    w0: map<Fd, seq<byte>>, w1: map<Fd, seq<byte>>, w2: map<Fd, seq<byte>>,
                    s0: map<Fd, nat>, s1: map<Fd, nat>, s2: map<Fd, nat>)
    requires Distinct(was) && HalfPassed(todo, was, now, w0, w1, s0, s1) && h in todo
    requires now'.Keys <= now.Keys && forall g | g != h :: EntryAt(now', g) == EntryAt(now, g)
    requires PassedAt(h, was, now', w0, w2, s0, s2)
    requires forall f | f != was[h].innerFd :: OnWire(w1, f) == OnWire(w2, f) && ShutCount(s1, f) == ShutCount(s2, f)
    ensures HalfPassed(todo - {h}, was, now', w0, w2, s0, s2)
  {
    hide Passed, EntryAt, OnWire, ShutCount;
    forall g | g in todo - {h} ensures g in now' && UntouchedAt(g, was, now', w0, w2, s0, s2) {
      assert UntouchedAt(g, was, now, w0, w1, s0, s1);
      Stays(g, h, was, w1, w2, s1, s2);
      StillThere(now', g);
    }
    forall g | g in was && g !in todo - {h} ensures PassedAt(g, was, now', w0, w2, s0, s2) {
      if g != h {
        assert PassedAt(g, was, now, w0, w1, s0, s1);
        Stays(g, h, was, w1, w2, s1, s2);
      }
    }
  }

  lemma StillThere(m: map<Handle, Pending>, g: Handle)
    requires EntryAt(m, g).Some?
    ensures g in m
  {
  }

  lemma Stays(g: Handle, h: Handle, was: map<Handle, Pending>,
              w1: map<Fd, seq<byte>>, w2: map<Fd, seq<byte>>, s1: map<Fd, nat>, s2: map<Fd, nat>)
    requires Distinct(was) && g in was && h in was && g != h
    requires forall f | f != was[h].innerFd :: OnWire(w1, f) == OnWire(w2, f) && ShutCount(s1, f) == ShutCount(s2, f)
    ensures OnWire(w1, was[g].innerFd) == OnWire(w2, was[g].innerFd)
    ensures ShutCount(s1, was[g].innerFd) == ShutCount(s2, was[g].innerFd)
  {
  }
}
