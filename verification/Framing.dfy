/**
 RHPv2 framing (crates/rhpv2/src/framing.rs): a 2-byte big-endian length, then
 that many bytes. What a reader recovers from any stream of frames, from any cut
 of it, and from frames written by threads that share the writer lock.
 */
module Framing {
  import opened Bytes

  const MAX_FRAME := 65535

  type Body = seq<byte>

  /** One frame on the wire. */
  function FrameOf(body: Body): (f: seq<byte>)
    requires |body| <= MAX_FRAME
    ensures |f| == 2 + |body|
  {
    [|body| / 256, |body| % 256] + body
  }

  datatype ReadResult = Eof | Frame(body: Body) | Broken

  /** What `read_frame` makes of a stream that ends after `stream`. */
  function Next(stream: seq<byte>): (r: ReadResult)
    ensures r.Frame? ==> |r.body| + 2 <= |stream| && |r.body| <= MAX_FRAME
  {
    if |stream| < 2 then Eof
    else
      var len: nat := stream[0] as nat * 256 + stream[1] as nat;
      if |stream| < 2 + len then Broken else Frame(stream[2..2 + len])
  }

  /** A frame is a length in network byte order and that many bytes; a reader takes the first that is complete. */
  lemma FrameShape(body: Body, f: seq<byte>)
    requires |body| <= MAX_FRAME
    ensures f == FrameOf(body) <==> |f| == 2 + |body| && 256 * f[0] as int + f[1] as int == |body| && f[2..] == body
    ensures Next(f) == Frame(body) <==> FrameOf(body) <= f
    ensures Next(f) == Eof <==> |f| < 2
  {
    if 2 + |body| <= |f| {
      assert f[..2 + |body|] == f[..2] + f[2..2 + |body|];
    }
    if |f| == 2 + |body| && 256 * f[0] as int + f[1] as int == |body| && f[2..] == body {
      assert f == f[..2] + body;
    }
  }

  // ---- In place --------------------------------------------------------

  /** A byte stream: `sent` is all that was ever written, `at` how much of it was read. */
  class Stream {
    var sent: seq<byte>
    var at: nat

    constructor (bytes: seq<byte>)
      ensures sent == bytes && at == 0
    {
      sent := bytes;
      at := 0;
    }

    predicate Valid()
      reads this
    {
      at <= |sent|
    }

    /** `write_all`: everything, or a front of it and an error. */
    method WriteAll(bytes: seq<byte>) returns (ok: bool)
      modifies this`sent
      ensures ok ==> sent == old(sent) + bytes
      ensures old(sent) <= sent <= old(sent) + bytes
    {
      ok := *;
      if ok {
        sent := sent + bytes;
      } else {
        var n :| 0 <= n <= |bytes|;
        sent := sent + bytes[..n];
      }
    }

    /** `read_exact`: `n` bytes, or the end came first and what was left is consumed. */
    method ReadExact(n: nat) returns (r: Option<seq<byte>>)
      requires Valid()
      modifies this`at
      ensures Valid()
      ensures r.Some? <==> old(at) + n <= |sent|
      ensures r.Some? ==> at == old(at) + n && r.value == sent[old(at)..at]
      ensures r.None? ==> at == |sent|
    {
      if at + n <= |sent| {
        r := Some(sent[at..at + n]);
        at := at + n;
      } else {
        r := None;
        at := |sent|;
      }
    }
  }

  datatype WriteResult = Written | TooLarge | IoError

  /** `write_frame`. */
  method WriteFrame(w: Stream, payload: Body) returns (r: WriteResult)
    modifies w`sent
    ensures r.TooLarge? <==> |payload| > 65535
    ensures r.TooLarge? ==> w.sent == old(w.sent)
    ensures |payload| <= MAX_FRAME ==> old(w.sent) <= w.sent <= old(w.sent) + FrameOf(payload)
    ensures r.Written? ==> w.sent == old(w.sent) + FrameOf(payload)
  {
    if |payload| > MAX_FRAME {
      return TooLarge;
    }
    var ok := w.WriteAll([|payload| / 256, |payload| % 256]);
    if !ok {
      return IoError;
    }
    ok := w.WriteAll(payload);
    if !ok {
      return IoError;
    }
    r := Written;
  }

  /** `read_frame` on a stream that ends where its bytes end. */
  method ReadFrame(s: Stream) returns (r: ReadResult)
    requires s.Valid()
    modifies s`at
    ensures s.Valid() && r == Next(s.sent[old(s.at)..])
    ensures r.Frame? ==> s.at == old(s.at) + 2 + |r.body|
  {
    ghost var rest := s.sent[s.at..];
    var len := s.ReadExact(2);
    if len.None? {
      return Eof;
    }
    assert len.value == rest[..2];
    var n: nat := len.value[0] as nat * 256 + len.value[1] as nat;
    var body := s.ReadExact(n);
    if body.None? {
      return Broken;
    }
    assert body.value == rest[2..2 + n];
    r := Frame(body.value);
  }

  // ---- Streams of frames -----------------------------------------------

  predicate AllFit(bodies: seq<Body>) {
    forall b | b in bodies :: |b| <= MAX_FRAME
  }

  /** The bodies written one after the other. */
  function Join(bodies: seq<Body>): seq<byte>
    requires AllFit(bodies)
  {
    if bodies == [] then [] else FrameOf(bodies[0]) + Join(bodies[1..])
  }

  /** Reading until the end or an error: the bodies, and which of the two it was. */
  function ReadAll(stream: seq<byte>): (r: (seq<Body>, ReadResult))
    ensures !r.1.Frame?
    decreases |stream|
  {
    match Next(stream)
    case Frame(body) =>
      var rest := ReadAll(stream[2 + |body|..]);
      ([body] + rest.0, rest.1)
    case end => ([], end)
  }

  /** How many of the frames lie wholly within the first `n` bytes. */
  function CompleteWithin(bodies: seq<Body>, n: nat): (k: nat)
    ensures k <= |bodies|
  {
    if bodies == [] || n < 2 + |bodies[0]| then 0
    else 1 + CompleteWithin(bodies[1..], n - 2 - |bodies[0]|)
  }

  /** Bytes of the first `n` that follow the last complete frame. */
  function Leftover(bodies: seq<Body>, n: nat): nat {
    if bodies == [] || n < 2 + |bodies[0]| then n
    else Leftover(bodies[1..], n - 2 - |bodies[0]|)
  }

  /** `CompleteWithin` counts just that: one frame more would not fit. */
  lemma {:induction false} CompleteIsMaximal(bodies: seq<Body>, n: nat)
    requires AllFit(bodies)
    ensures var k := CompleteWithin(bodies, n);
            && AllFit(bodies[..k]) && |Join(bodies[..k])| + Leftover(bodies, n) == n
            && (k < |bodies| ==> Leftover(bodies, n) < 2 + |bodies[k]|)
    decreases |bodies|
  {
    if bodies != [] && n >= 2 + |bodies[0]| {
      var rest, m := bodies[1..], n - 2 - |bodies[0]|;
      CompleteIsMaximal(rest, m);
      assert bodies[..1 + CompleteWithin(rest, m)][1..] == rest[..CompleteWithin(rest, m)];
    }
  }

  lemma NextAfterFrame(body: Body, rest: seq<byte>)
    requires |body| <= MAX_FRAME
    ensures Next(FrameOf(body) + rest) == Frame(body)
    ensures (FrameOf(body) + rest)[2 + |body|..] == rest
  {
    var s := FrameOf(body) + rest;
    assert s[0] == |body| / 256 && s[1] == |body| % 256;
    assert s[2..2 + |body|] == body;
  }

  lemma ReadAllFrame(b: Body, rest: seq<byte>)
    requires |b| <= MAX_FRAME
    ensures ReadAll(FrameOf(b) + rest) == ([b] + ReadAll(rest).0, ReadAll(rest).1)
  {
    NextAfterFrame(b, rest);
  }

  lemma ReadAllCutInside(b: Body, rest: seq<byte>, n: nat)
    requires |b| <= MAX_FRAME && n < 2 + |b|
    ensures ReadAll((FrameOf(b) + rest)[..n]) == ([], if n < 2 then Eof else Broken)
  {
    CutInsideFrame(b, rest, n);
  }

  lemma CutInsideFrame(b: Body, rest: seq<byte>, n: nat)
    requires |b| <= MAX_FRAME && n < 2 + |b|
    ensures Next((FrameOf(b) + rest)[..n]) == if n < 2 then Eof else Broken
  {
    var s := (FrameOf(b) + rest)[..n];
    if n >= 2 {
      assert s[0] == |b| / 256 && s[1] == |b| % 256;
    }
  }

  lemma CutAfterFrame(b: Body, rest: seq<byte>, n: nat)
    requires |b| <= MAX_FRAME && 2 + |b| <= n <= 2 + |b| + |rest|
    ensures (FrameOf(b) + rest)[..n] == FrameOf(b) + rest[..n - 2 - |b|]
  {
  }

  lemma JoinHead(bodies: seq<Body>)
    requires AllFit(bodies) && bodies != []
    ensures AllFit(bodies[1..]) && |bodies[0]| <= MAX_FRAME
    ensures Join(bodies) == FrameOf(bodies[0]) + Join(bodies[1..])
    ensures |Join(bodies)| == 2 + |bodies[0]| + |Join(bodies[1..])|
  {
    assert bodies[0] in bodies && forall x | x in bodies[1..] :: x in bodies;
  }

  lemma CompleteHead(bodies: seq<Body>, n: nat)
    requires bodies != []
    ensures n < 2 + |bodies[0]| ==> bodies[..CompleteWithin(bodies, n)] == [] && Leftover(bodies, n) == n
    ensures n >= 2 + |bodies[0]| ==>
              var m := n - 2 - |bodies[0]|;
              && bodies[..CompleteWithin(bodies, n)] == [bodies[0]] + bodies[1..][..CompleteWithin(bodies[1..], m)]
              && Leftover(bodies, n) == Leftover(bodies[1..], m)
  {
  }

  /** What reading the stream cut at `n` gives. */
  ghost predicate CutRight(bodies: seq<Body>, n: nat)
    requires AllFit(bodies) && n <= |Join(bodies)|
  {
    ReadAll(Join(bodies)[..n]) ==
    (bodies[..CompleteWithin(bodies, n)], if Leftover(bodies, n) < 2 then Eof else Broken)
  }

  lemma CutInFirst(bodies: seq<Body>, n: nat)
    requires AllFit(bodies) && bodies != [] && n <= |Join(bodies)| && n < 2 + |bodies[0]|
    ensures CutRight(bodies, n)
  {
    hide FrameOf, ReadAll, AllFit, Join, CompleteWithin, Leftover;
    JoinHead(bodies);
    CompleteHead(bodies, n);
    ReadAllCutInside(bodies[0], Join(bodies[1..]), n);
  }

  lemma CutLater(bodies: seq<Body>, n: nat)
    requires AllFit(bodies) && bodies != [] && 2 + |bodies[0]| <= n <= |Join(bodies)|
    requires AllFit(bodies[1..]) && |Join(bodies)| == 2 + |bodies[0]| + |Join(bodies[1..])|
    requires CutRight(bodies[1..], n - 2 - |bodies[0]|)
    ensures CutRight(bodies, n)
  {
    hide FrameOf, ReadAll, AllFit, Join, CompleteWithin, Leftover;
    var b, rest, m := bodies[0], bodies[1..], n - 2 - |bodies[0]|;
    JoinHead(bodies);
    CompleteHead(bodies, n);
    CutAfterFrame(b, Join(rest), n);
    ReadAllFrame(b, Join(rest)[..m]);
  }

  /**
   A stream cut anywhere yields exactly the complete frames before the cut. The
   reader sees a clean end if the cut leaves less than a length prefix, an error
   otherwise.
   */
  lemma {:induction false} CutStreamYieldsCompleteFrames(bodies: seq<Body>, n: nat)
    requires AllFit(bodies) && n <= |Join(bodies)|
    ensures ReadAll(Join(bodies)[..n]) ==
            (bodies[..CompleteWithin(bodies, n)], if Leftover(bodies, n) < 2 then Eof else Broken)
    decreases |bodies|
  {
    if bodies == [] {
      assert Join(bodies)[..n] == [];
    } else {
      hide FrameOf, ReadAll, AllFit, Join, CompleteWithin, Leftover;
      JoinHead(bodies);
      if n < 2 + |bodies[0]| {
        CutInFirst(bodies, n);
      } else {
        CutStreamYieldsCompleteFrames(bodies[1..], n - 2 - |bodies[0]|);
        CutLater(bodies, n);
      }
    }
  }

  lemma {:induction false} WholeStreamIsComplete(bodies: seq<Body>)
    requires AllFit(bodies)
    ensures CompleteWithin(bodies, |Join(bodies)|) == |bodies| && Leftover(bodies, |Join(bodies)|) == 0
    decreases |bodies|
  {
    if bodies != [] {
      WholeStreamIsComplete(bodies[1..]);
    }
  }

  /** An uncut stream gives back every body, then a clean end. */
  lemma WholeStreamRoundTrips(bodies: seq<Body>)
    requires AllFit(bodies)
    ensures ReadAll(Join(bodies)) == (bodies, Eof)
  {
    WholeStreamIsComplete(bodies);
    CutStreamYieldsCompleteFrames(bodies, |Join(bodies)|);
    assert Join(bodies)[..|Join(bodies)|] == Join(bodies);
    assert bodies[..|bodies|] == bodies;
  }

  // ---- Writers sharing the lock ----------------------------------------

  /** The thread holding the writer lock, with what it still has to write of its frame. */
  datatype Writer = Nobody | Writing(body: Body, done: nat)

  /**
   `order` lists the bodies of finished frames in the order in which the lock was
   taken; `torn` those finished before the first frame that a failing writer left
   cut short, if there is one.
   */
  datatype Shared = Shared(stream: seq<byte>, holder: Writer, order: seq<Body>, torn: Option<seq<Body>>)

  datatype WriterStep = Lock(body: Body) | WriteSome(n: nat) | Unlock | Fail

  predicate CanStep(s: Shared, e: WriterStep) {
    match e
    case Lock(body) => s.holder.Nobody? && |body| <= MAX_FRAME
    case WriteSome(n) => s.holder.Writing? && s.holder.done + n <= 2 + |s.holder.body|
    case Unlock => s.holder.Writing? && s.holder.done == 2 + |s.holder.body|
    case Fail => s.holder.Writing? && s.holder.done < 2 + |s.holder.body|   // a write error; the lock is released
  }

  predicate SharedInv(s: Shared) {
    && AllFit(s.order)
    && (s.holder.Writing? ==> |s.holder.body| <= MAX_FRAME && s.holder.done <= 2 + |s.holder.body|)
    && (s.torn.None? ==> s.stream == Join(s.order) + InHand(s.holder))
    && (s.torn.Some? ==>
          && AllFit(s.torn.value) && s.torn.value <= s.order && Join(s.torn.value) <= s.stream
          && |s.stream| > |Join(s.order)| + |InHand(s.holder)|)
  }

  /** The part of the holder's frame that is on the stream. */
  function InHand(w: Writer): seq<byte>
    requires w.Writing? ==> |w.body| <= MAX_FRAME && w.done <= 2 + |w.body|
  {
    if w.Writing? then FrameOf(w.body)[..w.done] else []
  }

  function Step(s: Shared, e: WriterStep): Shared
    requires CanStep(s, e) && SharedInv(s)
  {
    match e
    case Lock(body) => s.(holder := Writing(body, 0))
    case WriteSome(n) =>
      s.(stream := s.stream + FrameOf(s.holder.body)[s.holder.done..s.holder.done + n],
         holder := Writing(s.holder.body, s.holder.done + n))
    case Unlock => s.(holder := Nobody, order := s.order + [s.holder.body])
    case Fail =>
      s.(holder := Nobody, torn := if s.torn.None? && s.holder.done > 0 then Some(s.order) else s.torn)
  }

  lemma {:induction false} JoinSnoc(bodies: seq<Body>, b: Body)
    requires AllFit(bodies) && |b| <= MAX_FRAME
    ensures AllFit(bodies + [b]) && Join(bodies + [b]) == Join(bodies) + FrameOf(b)
    decreases |bodies|
  {
    if bodies == [] {
      assert bodies + [b] == [b] && Join([b]) == FrameOf(b) + Join([]);
    } else {
      assert (bodies + [b])[1..] == bodies[1..] + [b];
      JoinSnoc(bodies[1..], b);
    }
  }

  lemma WriteMore(before: seq<byte>, f: seq<byte>, d: nat, n: nat)
    requires d + n <= |f|
    ensures (before + f[..d]) + f[d..d + n] == before + f[..d + n]
  {
  }

  lemma StepKeepsShared(s: Shared, e: WriterStep)
    requires SharedInv(s) && CanStep(s, e)
    ensures SharedInv(Step(s, e))
  {
    hide FrameOf, Join, AllFit;
    match e
    case Lock(body) =>
    case WriteSome(n) =>
      if s.torn.None? {
        WriteMore(Join(s.order), FrameOf(s.holder.body), s.holder.done, n);
      }
    case Unlock =>
      JoinSnoc(s.order, s.holder.body);
      assert FrameOf(s.holder.body)[..s.holder.done] == FrameOf(s.holder.body);
    case Fail =>
      assert s.holder.done == 0 ==> FrameOf(s.holder.body)[..s.holder.done] == [];
  }

  /** The stream after a run of writer steps, `None` if one could not happen. */
  function RunWriters(es: seq<WriterStep>): (r: Option<Shared>)
    ensures r.Some? ==> SharedInv(r.value)
    decreases |es|
  {
    if es == [] then Some(Shared([], Nobody, [], None))
    else
      var n := |es| - 1;
      var s := RunWriters(es[..n]);
      if s.Some? && CanStep(s.value, es[n]) then
        StepKeepsShared(s.value, es[n]);
        Some(Step(s.value, es[n]))
      else None
  }

  /**
   Whatever the interleaving of writers, a reader recovers exactly the finished
   frames, in lock order, at every moment; a frame still being written is not seen.
   Once a writer has failed inside a frame, what was finished before is still read
   first.
   */
  lemma ReadersSeeLockOrder(es: seq<WriterStep>)
    requires RunWriters(es).Some?
    ensures var s := RunWriters(es).value;
            && (s.torn.None? && (s.holder.Writing? ==> s.holder.done < 2 + |s.holder.body|) ==>
                  ReadAll(s.stream).0 == s.order)
            && (s.torn.Some? ==> s.torn.value <= s.order && s.torn.value <= ReadAll(s.stream).0)
  {
    var s := RunWriters(es).value;
    hide RunWriters, ReadAll, Join, AllFit, FrameOf;
    if s.torn.Some? {
      FrontIsRead(s.torn.value, s.stream);
    } else if s.holder.Nobody? {
      assert s.stream == Join(s.order);
      WholeStreamRoundTrips(s.order);
    } else if s.holder.done < 2 + |s.holder.body| {
      PartialFrameIsUnseen(s.order, s.holder.body, s.holder.done);
    }
  }

  /** Frames at the front of a stream are read first, whatever follows. */
  lemma {:induction false} FrontIsRead(bodies: seq<Body>, stream: seq<byte>)
    requires AllFit(bodies) && Join(bodies) <= stream
    ensures bodies <= ReadAll(stream).0
    decreases |bodies|
  {
    if bodies != [] {
      JoinHead(bodies);
      var b, rest := bodies[0], bodies[1..];
      hide FrameOf, ReadAll, AllFit, Join;
      var tail := stream[|FrameOf(b)|..];
      assert stream == FrameOf(b) + tail && Join(rest) <= tail;
      FrontIsRead(rest, tail);
      ReadAllFrame(b, tail);
    }
  }

  lemma NextStep(es: seq<WriterStep>, e: WriterStep) returns (next: seq<WriterStep>)
    requires RunWriters(es).Some? && CanStep(RunWriters(es).value, e)
    ensures next == es + [e] && RunWriters(next) == Some(Step(RunWriters(es).value, e))
  {
    next := es + [e];
    assert next[..|next| - 1] == es;
  }

  // When the lock order survives.

  /** Between frames and inside them a reader sees the finished bodies, in order. */
  predicate InOrder(s: Shared) {
    (s.holder.Writing? ==> s.holder.done < 2 + |s.holder.body|) ==> ReadAll(s.stream).0 == s.order
  }

  /** The stream is in order now and after every continuation without a further failure. */
  ghost predicate StaysInOrder(es: seq<WriterStep>) {
    forall more: seq<WriterStep> | Fail !in more && RunWriters(es + more).Some? :: InOrder(RunWriters(es + more).value)
  }

  /** The stream stays in lock order exactly if no writer has failed inside a frame. */
  lemma LockOrderSurvivesIff(es: seq<WriterStep>)
    requires RunWriters(es).Some?
    ensures RunWriters(es).value.torn.None? <==> StaysInOrder(es)
  {
    hide RunWriters, InOrder;
    if RunWriters(es).value.torn.None? {
      forall more: seq<WriterStep> | Fail !in more && RunWriters(es + more).Some?
        ensures InOrder(RunWriters(es + more).value)
      {
        OnlyFailuresTear(es, more);
        UntornIsInOrder(es + more);
      }
    } else {
      var more := Misreading(es);
      assert Fail !in more && !InOrder(RunWriters(es + more).value);
    }
  }

  lemma UntornIsInOrder(es: seq<WriterStep>)
    requires RunWriters(es).Some? && RunWriters(es).value.torn.None?
    ensures InOrder(RunWriters(es).value)
  {
    ReadersSeeLockOrder(es);
  }

  lemma {:induction false} OnlyFailuresTear(es: seq<WriterStep>, more: seq<WriterStep>)
    requires Fail !in more && RunWriters(es + more).Some?
    requires RunWriters(es).Some? && RunWriters(es).value.torn.None?
    ensures RunWriters(es + more).value.torn.None?
    decreases |more|
  {
    if more == [] {
      assert es + more == es;
    } else {
      hide CanStep, Step, SharedInv, RunWriters;
      var n := |more| - 1;
      LastOf(es, more);
      LastStep(es + more);
      OnlyFailuresTear(es, more[..n]);
      OnlyAFailureTears(RunWriters(es + more[..n]).value, more[n]);
    }
  }

  lemma LastOf(es: seq<WriterStep>, more: seq<WriterStep>)
    requires more != []
    ensures var n := |more| - 1;
            && (es + more)[..|es + more| - 1] == es + more[..n] && (es + more)[|es + more| - 1] == more[n]
            && more[n] in more && forall e | e in more[..n] :: e in more
  {
  }

  lemma LastStep(es: seq<WriterStep>)
    requires es != [] && RunWriters(es).Some?
    ensures var n := |es| - 1;
            && RunWriters(es[..n]).Some? && SharedInv(RunWriters(es[..n]).value)
            && CanStep(RunWriters(es[..n]).value, es[n])
            && RunWriters(es).value == Step(RunWriters(es[..n]).value, es[n])
  {
    hide CanStep, Step, SharedInv;
  }

  lemma OnlyAFailureTears(s: Shared, e: WriterStep)
    requires SharedInv(s) && CanStep(s, e) && e != Fail && s.torn.None?
    ensures Step(s, e).torn.None?
  {
    hide SharedInv;
  }

  /** The bytes behind the frames that a reader gets out of `stream`: no complete frame is at their front. */
  lemma {:induction false} ReadAllLeaves(stream: seq<byte>) returns (rest: seq<byte>)
    ensures AllFit(ReadAll(stream).0) && stream == Join(ReadAll(stream).0) + rest && !Next(rest).Frame?
    decreases |stream|
  {
    if Next(stream).Frame? {
      var body := Next(stream).body;
      var tail := stream[2 + |body|..];
      NextIsFrame(stream);
      rest := ReadAllLeaves(tail);
      JoinCons(body, ReadAll(tail).0);
    } else {
      rest := stream;
    }
  }

  lemma NextIsFrame(stream: seq<byte>)
    requires Next(stream).Frame?
    ensures var b := Next(stream).body;
            |b| <= MAX_FRAME && 2 + |b| <= |stream| && stream == FrameOf(b) + stream[2 + |b|..]
  {
    var b := Next(stream).body;
    assert stream == stream[..2] + b + stream[2 + |b|..];
    assert FrameOf(b)[0] == stream[0] && FrameOf(b)[1] == stream[1];
    assert FrameOf(b) == stream[..2] + b;
  }

  lemma JoinCons(b: Body, bodies: seq<Body>)
    requires AllFit(bodies) && |b| <= MAX_FRAME
    ensures AllFit([b] + bodies) && Join([b] + bodies) == FrameOf(b) + Join(bodies)
  {
    assert ([b] + bodies)[1..] == bodies;
  }

  lemma {:induction false} ReadAllBehind(bodies: seq<Body>, tail: seq<byte>)
    requires AllFit(bodies)
    ensures ReadAll(Join(bodies) + tail).0 == bodies + ReadAll(tail).0
    decreases |bodies|
  {
    if bodies == [] {
      assert Join(bodies) + tail == tail;
    } else {
      var b, rest := bodies[0], bodies[1..];
      JoinHead(bodies);
      hide FrameOf, ReadAll, AllFit, Join;
      Associate(FrameOf(b), Join(rest), tail);
      ReadAllBehind(rest, tail);
      ReadAllFrame(b, Join(rest) + tail);
      FirstThenRest(bodies, ReadAll(tail).0);
    }
  }

  lemma Associate(a: seq<byte>, b: seq<byte>, c: seq<byte>)
    ensures a + b + c == a + (b + c)
  {
  }

  lemma FirstThenRest(bodies: seq<Body>, more: seq<Body>)
    requires bodies != []
    ensures [bodies[0]] + (bodies[1..] + more) == bodies + more
  {
  }

  /** A body that a reader does not get back from behind the bytes `rest`. */
  function Lost(rest: seq<byte>): Body {
    if rest == [0] then [0] else []
  }

  lemma LostIsLost(rest: seq<byte>)
    requires rest != [] && !Next(rest).Frame?
    ensures ReadAll(rest + FrameOf(Lost(rest))).0 != [Lost(rest)]
  {
    var body := Lost(rest);
    var s := rest + FrameOf(body);
    assert s[0] == rest[0];
    if |rest| == 1 {
      assert s[1] == FrameOf(body)[0] == 0;
    } else {
      assert s[1] == rest[1];
    }
    if Next(s).Frame? {
      assert |Next(s).body| == s[0] as int * 256 + s[1] as int;
      assert ReadAll(s).0[0] == Next(s).body;
    }
  }

  /** Once the stream is torn and free, one more body of at most one byte shows it, unless it shows already. */
  lemma TornShows(s: Shared) returns (body: Body)
    requires SharedInv(s) && s.torn.Some? && s.holder.Nobody? && ReadAll(s.stream).0 == s.order
    ensures |body| <= 1 && ReadAll(s.stream + FrameOf(body)).0 != s.order + [body]
  {
    var rest := ReadAllLeaves(s.stream);
    hide ReadAll, Join, AllFit, FrameOf, Next;
    assert rest != [] by {
      assert |s.stream| == |Join(s.order)| + |rest|;
    }
    body := Lost(rest);
    LostIsLost(rest);
    assert s.stream + FrameOf(body) == Join(s.order) + (rest + FrameOf(body));
    ReadAllBehind(s.order, rest + FrameOf(body));
    if s.order + ReadAll(rest + FrameOf(body)).0 == s.order + [body] {
      SameBehind(s.order, ReadAll(rest + FrameOf(body)).0, [body]);
    }
  }

  lemma SameBehind(front: seq<Body>, a: seq<Body>, b: seq<Body>)
    requires front + a == front + b
    ensures a == b
  {
    assert a == (front + a)[|front|..] && b == (front + b)[|front|..];
  }

  /** The holder, if there is one, finishes its frame. */
  lemma Finished(es: seq<WriterStep>) returns (more: seq<WriterStep>)
    requires RunWriters(es).Some?
    ensures Fail !in more && RunWriters(es + more).Some?
    ensures RunWriters(es + more).value.holder.Nobody?
    ensures RunWriters(es + more).value.torn == RunWriters(es).value.torn
  {
    var s := RunWriters(es).value;
    hide RunWriters;
    if s.holder.Nobody? {
      more := [];
      assert es + more == es;
    } else {
      var n := 2 + |s.holder.body| - s.holder.done;
      var next := NextStep(es, WriteSome(n));
      next := NextStep(next, Unlock);
      more := [WriteSome(n), Unlock];
      assert es + more == next;
    }
  }

  /** One whole frame written by a writer that finds the lock free. */
  lemma OneFrame(es: seq<WriterStep>, body: Body) returns (more: seq<WriterStep>)
    requires RunWriters(es).Some? && RunWriters(es).value.holder.Nobody? && |body| <= MAX_FRAME
    ensures Fail !in more && RunWriters(es + more).Some?
    ensures var s := RunWriters(es).value;
            RunWriters(es + more).value == s.(stream := s.stream + FrameOf(body), order := s.order + [body])
  {
    hide RunWriters, FrameOf;
    var s := RunWriters(es).value;
    var next := NextStep(es, Lock(body));
    next := NextStep(next, WriteSome(2 + |body|));
    assert FrameOf(body)[0..2 + |body|] == FrameOf(body);
    next := NextStep(next, Unlock);
    more := [Lock(body), WriteSome(2 + |body|), Unlock];
    assert es + more == next;
  }

  /** From a torn stream a reader can be made to misread without any further failure. */
  lemma Misreading(es: seq<WriterStep>) returns (more: seq<WriterStep>)
    requires RunWriters(es).Some? && RunWriters(es).value.torn.Some?
    ensures Fail !in more && RunWriters(es + more).Some? && !InOrder(RunWriters(es + more).value)
  {
    hide RunWriters, ReadAll, FrameOf, SharedInv, InOrder;
    more := Finished(es);
    var s := RunWriters(es + more).value;
    if ReadAll(s.stream).0 == s.order {
      var body := TornShows(s);
      var last := OneFrame(es + more, body);
      FreeAndLost(RunWriters(es + more + last).value);
      assert es + (more + last) == es + more + last;
      more := more + last;
    } else {
      FreeAndLost(s);
    }
  }

  lemma FreeAndLost(s: Shared)
    requires s.holder.Nobody? && ReadAll(s.stream).0 != s.order
    ensures !InOrder(s)
  {
  }

  /** After a torn frame the reader can take a later frame for the missing bytes: here it never sees the empty body. */
  lemma ATornFrameMisleads() returns (es: seq<WriterStep>)
    ensures RunWriters(es).Some? && RunWriters(es).value.order == [[]]
    ensures ReadAll(RunWriters(es).value.stream).0 == [[0]]
  {
    es := TornInsideABody();
    assert FrameOf([]) == [0, 0];
    hide RunWriters, FrameOf;
    es := NextStep(es, Lock([]));
    es := NextStep(es, WriteSome(2));
    assert RunWriters(es).value.stream == [0, 1, 0, 0];
    es := NextStep(es, Unlock);
    MisreadStream();
  }

  lemma TornInsideABody() returns (es: seq<WriterStep>)
    ensures RunWriters(es) == Some(Shared([0, 1], Nobody, [], Some([])))
  {
    es := [];
    assert RunWriters(es) == Some(Shared([], Nobody, [], None));
    assert FrameOf([5]) == [0, 1, 5];
    hide RunWriters, FrameOf;
    es := NextStep(es, Lock([5]));
    es := NextStep(es, WriteSome(2));
    assert RunWriters(es).value.stream == [0, 1];
    es := NextStep(es, Fail);
  }

  lemma MisreadStream()
    ensures ReadAll([0, 1, 0, 0]).0 == [[0]]
  {
    var s: seq<byte> := [0, 1, 0, 0];
    assert s[2..3] == [0] && s[3..] == [0];
    assert Next(s) == Frame([0]);
    assert Next([0]) == Eof;
  }

  lemma PartialFrameIsUnseen(order: seq<Body>, b: Body, d: nat)
    requires AllFit(order) && |b| <= MAX_FRAME && d < 2 + |b|
    ensures ReadAll(Join(order) + FrameOf(b)[..d]).0 == order
  {
    hide FrameOf, ReadAll, Join, AllFit, CompleteWithin, Leftover;
    var all := order + [b];
    JoinSnoc(order, b);
    var n := |Join(order)| + d;
    FrontOfFrame(Join(order), FrameOf(b), d);
    CutStreamYieldsCompleteFrames(all, n);
    CompleteSnoc(order, b, d);
    assert all[..|order|] == order;
  }

  lemma FrontOfFrame(before: seq<byte>, f: seq<byte>, d: nat)
    requires d <= |f|
    ensures before + f[..d] == (before + f)[..|before| + d]
  {
  }

  lemma {:induction false} CompleteSnoc(bodies: seq<Body>, b: Body, d: nat)
    requires AllFit(bodies) && d < 2 + |b|
    ensures CompleteWithin(bodies + [b], |Join(bodies)| + d) == |bodies|
    decreases |bodies|
  {
    if bodies == [] {
      assert bodies + [b] == [b];
    } else {
      assert (bodies + [b])[1..] == bodies[1..] + [b];
      CompleteSnoc(bodies[1..], b, d);
    }
  }
}
