/**
 From application bytes to RHP send frames and back (crates/rhpv2/src/client.rs,
 codec.rs, messages.rs, framing.rs): chunking, the Latin-1 data string inside the
 JSON request, its size, and what the other end recovers.
 */
module Wire {
  import opened Bytes
  import opened Text
  import opened Framing
  import Json

  const MAX_SEND_CHUNK := 8100
  const U64 := 0x1_0000_0000_0000_0000

  // ---- The data codec --------------------------------------------------

  /** One code point per byte: U+0000..U+00FF. */
  function ToWireString(bs: seq<byte>): (s: string)
    ensures |s| == |bs|
  {
    seq(|bs|, i requires 0 <= i < |bs| => bs[i] as char)
  }

  /** One byte per code point; above U+00FF only the low byte survives. */
  function FromWireString(s: string): (bs: seq<byte>)
    ensures |bs| == |s| && forall i | 0 <= i < |s| :: (s[i] as int - bs[i] as int) % 256 == 0
  {
    seq(|s|, i requires 0 <= i < |s| => s[i] as int % 256)
  }

  /** The codec gives back every byte string; a string comes back exactly if it is Latin-1. */
  lemma WireStringRoundTrips(bs: seq<byte>, s: string)
    ensures FromWireString(ToWireString(bs)) == bs
    ensures ToWireString(FromWireString(s)) == s <==> forall c | c in s :: c as int < 256
  {
    if forall c | c in s :: c as int < 256 {
      assert forall i | 0 <= i < |s| :: s[i] in s;
    } else {
      var c :| c in s && c as int >= 256;
      var i :| 0 <= i < |s| && s[i] == c;
      assert ToWireString(FromWireString(s))[i] != s[i];
    }
  }

  // ---- One send request ------------------------------------------------

  /** The fields of `SendReq` in the order of their declaration. */
  function SendMembers(id: nat, handle: nat, chunk: seq<byte>): seq<Json.Member> {
    [Json.Member("type", Json.Str("send")), Json.Member("id", Json.Num(id)), Json.Member("handle", Json.Num(handle)),
     Json.Member("data", Json.Str(ToWireString(chunk)))]
  }

  /** The serialised `SendReq`. */
  function SendBody(id: nat, handle: nat, chunk: seq<byte>): seq<byte> {
    Utf8(Json.ObjectText(SendMembers(id, handle, chunk)))
  }

  datatype Send = Send(id: nat, handle: nat, data: seq<byte>)

  /** The other end's reading of a body: any JSON object that has the members of a send request, in any order. */
  function ParseSend(body: seq<byte>): Option<Send> {
    match FromUtf8(body)
    case None => None
    case Some(s) =>
      match Json.ReadObject(s)
      case None => None
      case Some(ms) =>
        if Json.Get(ms, "type") != Some(Json.Str("send")) then None
        else
          match (Json.Get(ms, "id"), Json.Get(ms, "handle"), Json.Get(ms, "data"))
          case (Some(Num(id)), Some(Num(handle)), Some(Str(data))) => Some(Send(id, handle, FromWireString(data)))
          case _ => None
  }

  lemma SendMembersAre(id: nat, handle: nat, chunk: seq<byte>)
    ensures var ms := SendMembers(id, handle, chunk);
            && Json.Get(ms, "type") == Some(Json.Str("send"))
            && Json.Get(ms, "id") == Some(Json.Num(id)) && Json.Get(ms, "handle") == Some(Json.Num(handle))
            && Json.Get(ms, "data") == Some(Json.Str(ToWireString(chunk)))
  {
    var ms := SendMembers(id, handle, chunk);
    hide ToWireString;
    assert Json.Get(ms[1..], "id") == Some(Json.Num(id));
    assert Json.Get(ms[1..][1..], "handle") == Some(Json.Num(handle));
    assert Json.Get(ms[1..][1..][1..], "data") == Some(Json.Str(ToWireString(chunk)));
    assert Json.Get(ms[1..][1..], "data") == Json.Get(ms[1..], "data") == Json.Get(ms, "data");
  }

  /** The other end reads back exactly the id, the handle and every byte of the chunk. */
  lemma SendBodyRoundTrips(id: nat, handle: nat, chunk: seq<byte>)
    ensures ParseSend(SendBody(id, handle, chunk)) == Some(Send(id, handle, chunk))
  {
    var ms := SendMembers(id, handle, chunk);
    WireStringRoundTrips(chunk, ToWireString(chunk));
    SendMembersAre(id, handle, chunk);
    Json.ObjectIsRead(ms);
    Utf8RoundTrips(Json.ObjectText(ms));
    hide SendMembers, ToWireString, FromWireString, Utf8, FromUtf8, Json.ReadObject, Json.ObjectText, Json.Get;
  }

  const HEAD := "{\"type\":\"send\",\"id\":"
  const MID := ",\"handle\":"
  const TAIL := ",\"data\":\""
  const END := "\"}"

  /** The text of a request, written out. */
  lemma SendTextIs(id: nat, handle: nat, chunk: seq<byte>)
    ensures Json.ObjectText(SendMembers(id, handle, chunk)) ==
            HEAD + Decimal(id) + MID + Decimal(handle) + TAIL + Escape(ToWireString(chunk)) + END
  {
    var data := Escape(ToWireString(chunk));
    MembersAre(id, handle, ToWireString(chunk));
    Regroup(Decimal(id), Decimal(handle), data);
    hide Json.ObjectText, Json.MemberText, ToWireString, Escape, Decimal;
    Json.ObjectOfFour(Json.Member("type", Json.Str("send")), Json.Member("id", Json.Num(id)),
                      Json.Member("handle", Json.Num(handle)), Json.Member("data", Json.Str(ToWireString(chunk))));
  }

  lemma MembersAre(id: nat, handle: nat, data: string)
    ensures Json.MemberText(Json.Member("type", Json.Str("send"))) == "\"type\"" + (":" + "\"send\"")
    ensures Json.MemberText(Json.Member("id", Json.Num(id))) == "\"id\"" + (":" + Decimal(id))
    ensures Json.MemberText(Json.Member("handle", Json.Num(handle))) == "\"handle\"" + (":" + Decimal(handle))
    ensures Json.MemberText(Json.Member("data", Json.Str(data))) == "\"data\"" + (":" + ("\"" + Escape(data) + "\""))
  {
    hide Escape, Decimal;
    PlainNames();
    NameIsPlain("type", Json.Str("send"));
    NameIsPlain("id", Json.Num(id));
    NameIsPlain("handle", Json.Num(handle));
    NameIsPlain("data", Json.Str(data));
  }

  lemma NameIsPlain(name: string, v: Json.Value)
    requires Escape(name) == name
    ensures Json.MemberText(Json.Member(name, v)) == "\"" + name + "\"" + (":" + Json.ValueText(v))
  {
  }

  lemma PlainNames()
    ensures Escape("type") == "type" && Escape("send") == "send" && Escape("id") == "id"
    ensures Escape("handle") == "handle" && Escape("data") == "data"
  {
    hide Escape;
    PlainIsKept("type");
    PlainIsKept("send");
    PlainIsKept("id");
    PlainIsKept("handle");
    PlainIsKept("data");
  }

  lemma Regroup(id: string, handle: string, data: string)
    ensures "{" + (("\"type\"" + (":" + "\"send\"")) + ("," + (("\"id\"" + (":" + id)) + ("," +
              (("\"handle\"" + (":" + handle)) + ("," + (("\"data\"" + (":" + ("\"" + data + "\""))) + "}")))))))
            == HEAD + id + MID + handle + TAIL + data + END
  {
    var d := TAIL + data + END;
    assert "," + (("\"data\"" + (":" + ("\"" + data + "\""))) + "}") == d;
    var h := MID + handle + d;
    assert "," + (("\"handle\"" + (":" + handle)) + d) == h;
    assert "{" + (("\"type\"" + (":" + "\"send\"")) + ("," + (("\"id\"" + (":" + id)) + h))) == HEAD + id + h;
    Associate(HEAD + id, MID + handle, TAIL + data, END);
  }

  lemma Associate(a: string, b: string, c: string, d: string)
    ensures a + (b + (c + d)) == a + b + c + d
  {
  }

  // ---- Its size --------------------------------------------------------

  lemma {:induction false} EscapedSize(s: string)
    requires forall c | c in s :: c as int < 256
    ensures |Utf8(Escape(s))| <= 6 * |s|
    decreases |s|
  {
    if s != [] {
      var e := EscapeChar(s[0]);
      Utf8Concat(e, Escape(s[1..]));
      assert s[0] in s && forall c | c in s[1..] :: c in s;
      EscapedSize(s[1..]);
      EscapedCharSize(s[0]);
    }
  }

  lemma EscapedCharSize(c: char)
    requires c as int < 256
    ensures |Utf8(EscapeChar(c))| <= 6
  {
    var e := EscapeChar(c);
    if IsAscii(e) {
      AsciiKeepsLength(e);
    } else {
      assert e == [c];
      assert Utf8(e) == EncodeChar(c) + Utf8([]);
    }
  }

  /** Every chunk's request fits: at most 6 bytes per byte and 102 for the rest. */
  lemma SendBodyFits(id: nat, handle: nat, chunk: seq<byte>)
    requires id < U64 && handle < U64 && |chunk| <= MAX_SEND_CHUNK
    ensures |SendBody(id, handle, chunk)| <= 6 * |chunk| + 102 < 65535
  {
    SendTextIs(id, handle, chunk);
    hide Utf8, Escape, Decimal, ToWireString, Json.ObjectText, SendMembers;
    var data := Escape(ToWireString(chunk));
    var head := HEAD + Decimal(id) + MID + Decimal(handle) + TAIL;
    Utf8Concat(head + data, END);
    Utf8Concat(head, data);
    WireStringIsLatin1(chunk);
    EscapedSize(ToWireString(chunk));
    EnvelopeSize(id, handle);
  }

  lemma WireStringIsLatin1(chunk: seq<byte>)
    ensures forall c | c in ToWireString(chunk) :: c as int < 256
  {
  }

  lemma EnvelopeSize(id: nat, handle: nat)
    requires id < U64 && handle < U64
    ensures |Utf8(HEAD + Decimal(id) + MID + Decimal(handle) + TAIL)| <= 100 && |Utf8(END)| == 2
  {
    hide Utf8, Decimal;
    DecimalIsAscii(id);
    DecimalIsAscii(handle);
    AsciiKeepsLength(HEAD + Decimal(id) + MID + Decimal(handle) + TAIL);
    AsciiKeepsLength(END);
    Pow10Of20();
    hide Pow10;
    DecimalLength(id, 20);
    DecimalLength(handle, 20);
  }

  lemma DecimalIsAscii(n: nat)
    ensures IsAscii(Decimal(n))
  {
    assert forall c | c in Decimal(n) :: IsDigit(c);
  }

  lemma Pow10Of20()
    ensures U64 < Pow10(20)
  {
    assert Pow10(5) == 100000;
    assert Pow10(10) == 100000 * Pow10(5);
    assert Pow10(15) == 100000 * Pow10(10);
    assert Pow10(20) == 100000 * Pow10(15);
  }

  // ---- A whole send ----------------------------------------------------

  /** `data.chunks(MAX_SEND_CHUNK)`, with one empty chunk for no data. */
  function Chunks(data: seq<byte>): (cs: seq<seq<byte>>)
    ensures cs != [] && forall c | c in cs :: |c| <= MAX_SEND_CHUNK
    decreases |data|
  {
    if |data| <= MAX_SEND_CHUNK then [data]
    else [data[..MAX_SEND_CHUNK]] + Chunks(data[MAX_SEND_CHUNK..])
  }

  lemma {:induction false} ChunksRejoin(data: seq<byte>)
    ensures Flatten(Chunks(data)) == data
    decreases |data|
  {
    if |data| <= MAX_SEND_CHUNK {
      assert Flatten([data]) == data + Flatten([]);
    } else {
      ChunksRejoin(data[MAX_SEND_CHUNK..]);
      assert Chunks(data)[1..] == Chunks(data[MAX_SEND_CHUNK..]);
    }
  }

  /** Every chunk but the last is full, and only no data makes an empty one. */
  lemma {:induction false} ChunksAreFull(data: seq<byte>)
    ensures var cs := Chunks(data);
            && (forall k | 0 <= k < |cs| - 1 :: |cs[k]| == 8100) && |cs[|cs| - 1]| <= 8100
            && (cs[|cs| - 1] == [] <==> data == [])
    decreases |data|
  {
    ChunksStep(data);
    hide Chunks;
    if |data| > MAX_SEND_CHUNK {
      ChunksAreFull(data[MAX_SEND_CHUNK..]);
      FullThenRest(data[..MAX_SEND_CHUNK], Chunks(data[MAX_SEND_CHUNK..]), Chunks(data));
    }
  }

  lemma ChunksStep(data: seq<byte>)
    ensures Chunks(data) == if |data| <= MAX_SEND_CHUNK then [data]
                            else [data[..MAX_SEND_CHUNK]] + Chunks(data[MAX_SEND_CHUNK..])
  {
  }

  lemma FullThenRest(first: seq<byte>, rest: seq<seq<byte>>, cs: seq<seq<byte>>)
    requires |first| == MAX_SEND_CHUNK && rest != [] && cs == [first] + rest
    requires forall k | 0 <= k < |rest| - 1 :: |rest[k]| == MAX_SEND_CHUNK
    ensures forall k | 0 <= k < |cs| - 1 :: |cs[k]| == MAX_SEND_CHUNK
    ensures cs[|cs| - 1] == rest[|rest| - 1]
  {
    assert forall k | 1 <= k < |cs| :: cs[k] == rest[k - 1];
  }

  /** The requests for `chunks`, with the ids after `drawn`. */
  function Requests(drawn: nat, handle: nat, chunks: seq<seq<byte>>): seq<Body>
    decreases |chunks|
  {
    if chunks == [] then []
    else Requests(drawn, handle, chunks[..|chunks| - 1]) + [SendBody(drawn + |chunks|, handle, chunks[|chunks| - 1])]
  }

  predicate Sendable(drawn: nat, handle: nat, chunks: seq<seq<byte>>) {
    drawn + |chunks| < U64 && handle < U64 && forall c | c in chunks :: |c| <= MAX_SEND_CHUNK
  }

  lemma SendableFront(drawn: nat, handle: nat, chunks: seq<seq<byte>>)
    requires Sendable(drawn, handle, chunks) && chunks != []
    ensures Sendable(drawn, handle, chunks[..|chunks| - 1])
    ensures drawn + |chunks| < U64 && handle < U64 && |chunks[|chunks| - 1]| <= MAX_SEND_CHUNK
  {
    assert forall c | c in chunks[..|chunks| - 1] :: c in chunks;
    assert chunks[|chunks| - 1] in chunks;
  }

  lemma {:induction false} RequestsFit(drawn: nat, handle: nat, chunks: seq<seq<byte>>)
    requires Sendable(drawn, handle, chunks)
    ensures AllFit(Requests(drawn, handle, chunks)) && |Requests(drawn, handle, chunks)| == |chunks|
    decreases |chunks|
  {
    hide SendBody;
    if chunks != [] {
      hide AllFit, Requests, Sendable;
      var n := |chunks| - 1;
      assert chunks == chunks[..n + 1];
      SendableFront(drawn, handle, chunks);
      RequestsFit(drawn, handle, chunks[..n]);
      SendBodyFits(drawn + |chunks|, handle, chunks[n]);
      RequestsSnoc(drawn, handle, chunks, n);
      FitSnoc(Requests(drawn, handle, chunks[..n]), SendBody(drawn + |chunks|, handle, chunks[n]));
    }
  }

  lemma FitSnoc(bodies: seq<Body>, b: Body)
    requires AllFit(bodies) && |b| <= MAX_FRAME
    ensures AllFit(bodies + [b])
  {
  }

  lemma RequestsSnoc(drawn: nat, handle: nat, chunks: seq<seq<byte>>, k: nat)
    requires k < |chunks|
    ensures Requests(drawn, handle, chunks[..k + 1]) ==
            Requests(drawn, handle, chunks[..k]) + [SendBody(drawn + k + 1, handle, chunks[k])]
  {
    hide SendBody;
    var upTo := chunks[..k + 1];
    assert upTo[..k] == chunks[..k] && upTo[k] == chunks[k];
  }

  /** What the other end has for the application after reading `bodies`. */
  function Received(bodies: seq<Body>): Option<seq<byte>>
    decreases |bodies|
  {
    if bodies == [] then Some([])
    else
      match (Received(bodies[..|bodies| - 1]), ParseSend(bodies[|bodies| - 1]))
      case (Some(before), Some(s)) => Some(before + s.data)
      case _ => None
  }

  lemma {:induction false} RequestsAreReceived(drawn: nat, handle: nat, chunks: seq<seq<byte>>)
    ensures Received(Requests(drawn, handle, chunks)) == Some(Flatten(chunks))
    decreases |chunks|
  {
    hide SendBody, ParseSend;
    if chunks != [] {
      hide Flatten, Received, Requests;
      var n := |chunks| - 1;
      assert chunks == chunks[..n + 1] == chunks[..n] + [chunks[n]];
      RequestsAreReceived(drawn, handle, chunks[..n]);
      SendBodyRoundTrips(drawn + |chunks|, handle, chunks[n]);
      FlattenSnoc(chunks[..n], chunks[n]);
      RequestsSnoc(drawn, handle, chunks, n);
      ReceivedSnoc(Requests(drawn, handle, chunks[..n]), SendBody(drawn + |chunks|, handle, chunks[n]));
    }
  }

  lemma ReceivedSnoc(bodies: seq<Body>, b: Body)
    requires Received(bodies).Some? && ParseSend(b).Some?
    ensures Received(bodies + [b]) == Some(Received(bodies).value + ParseSend(b).value.data)
  {
    hide ParseSend;
    assert (bodies + [b])[..|bodies|] == bodies;
  }

  lemma {:induction false} RequestsPrefix(drawn: nat, handle: nat, chunks: seq<seq<byte>>, k: nat)
    requires k <= |chunks| == |Requests(drawn, handle, chunks)|
    ensures Requests(drawn, handle, chunks)[..k] == Requests(drawn, handle, chunks[..k])
    decreases |chunks|
  {
    if k == |chunks| {
      assert chunks[..k] == chunks;
    } else {
      var n := |chunks| - 1;
      assert chunks[..n][..k] == chunks[..k];
      RequestsPrefix(drawn, handle, chunks[..n], k);
    }
  }

  /** The send round trip: for every byte string, the frames of one send read back as exactly those bytes. */
  lemma SendRoundTrips(drawn: nat, handle: nat, data: seq<byte>)
    requires Sendable(drawn, handle, Chunks(data))
    ensures AllFit(Requests(drawn, handle, Chunks(data)))
    ensures Received(ReadAll(Join(Requests(drawn, handle, Chunks(data)))).0) == Some(data)
  {
    RequestsFit(drawn, handle, Chunks(data));
    hide Requests, Received, ReadAll, Join, Chunks, AllFit, Sendable;
    WholeStreamRoundTrips(Requests(drawn, handle, Chunks(data)));
    RequestsAreReceived(drawn, handle, Chunks(data));
    ChunksRejoin(data);
  }

  /** From any cut of that stream the other end recovers the bytes of the first whole chunks. */
  lemma CutSendIsAPrefix(drawn: nat, handle: nat, data: seq<byte>, n: nat)
    requires Sendable(drawn, handle, Chunks(data))
    requires AllFit(Requests(drawn, handle, Chunks(data)))
    requires n <= |Join(Requests(drawn, handle, Chunks(data)))|
    ensures var rs := Requests(drawn, handle, Chunks(data));
            var k := CompleteWithin(rs, n);
            && k <= |Chunks(data)|
            && Received(ReadAll(Join(rs)[..n]).0) == Some(Flatten(Chunks(data)[..k]))
            && Flatten(Chunks(data)[..k]) <= data
  {
    var cs := Chunks(data);
    RequestsFit(drawn, handle, cs);
    hide Requests, Received, ReadAll, Join, CompleteWithin, Leftover, Flatten, Chunks, AllFit, Sendable;
    var rs := Requests(drawn, handle, cs);
    var k := CompleteWithin(rs, n);
    CutStreamYieldsCompleteFrames(rs, n);
    RequestsPrefix(drawn, handle, cs, k);
    RequestsAreReceived(drawn, handle, cs[..k]);
    FrontOfChunks(data, k);
  }

  lemma FrontOfChunks(data: seq<byte>, k: nat)
    requires k <= |Chunks(data)|
    ensures Flatten(Chunks(data)[..k]) <= data
  {
    hide Chunks, Flatten;
    var cs := Chunks(data);
    ChunksRejoin(data);
    FlattenConcat(cs[..k], cs[k..]);
    assert cs == cs[..k] + cs[k..];
  }

  // ---- In place --------------------------------------------------------

  /** The client's writing half: the stream, and how many ids were drawn. */
  class Sender {
    const stream: Stream
    var drawn: nat

    constructor (stream: Stream)
      ensures this.stream == stream && drawn == 0
    {
      this.stream := stream;
      drawn := 0;
    }

    /** One request; the answer, or its absence, is the engine's choice. */
    method SendChunk(handle: nat, chunk: seq<byte>) returns (ok: bool)
      requires drawn + 1 < U64 && handle < U64 && |chunk| <= MAX_SEND_CHUNK
      modifies this`drawn, stream`sent
      ensures drawn == old(drawn) + 1
      ensures |SendBody(drawn, handle, chunk)| <= MAX_FRAME
      ensures old(stream.sent) <= stream.sent <= old(stream.sent) + FrameOf(SendBody(drawn, handle, chunk))
      ensures ok ==> stream.sent == old(stream.sent) + FrameOf(SendBody(drawn, handle, chunk))
    {
      drawn := drawn + 1;
      SendBodyFits(drawn, handle, chunk);
      var r := WriteFrame(stream, SendBody(drawn, handle, chunk));
      ok := *;
      ok := ok && r.Written?;
    }

    /**
     `send`: chunk after chunk until one fails. On success exactly the frames of
     all chunks are on the stream; on failure a front of them.
     */
    method Send(handle: nat, data: seq<byte>) returns (ok: bool)
      requires Sendable(drawn, handle, Chunks(data))
      modifies this`drawn, stream`sent
      ensures AllFit(Requests(old(drawn), handle, Chunks(data)))
      ensures old(stream.sent) <= stream.sent
      ensures stream.sent <= old(stream.sent) + Join(Requests(old(drawn), handle, Chunks(data)))
      ensures ok ==> stream.sent == old(stream.sent) + Join(Requests(old(drawn), handle, Chunks(data)))
      ensures old(drawn) < drawn <= old(drawn) + |Chunks(data)|
    {
      hide Requests, Join, AllFit, SendBody, FrameOf, Chunks, Sendable, Progress;
      ghost var cs, d0, s0 := Chunks(data), drawn, stream.sent;
      RequestsFit(d0, handle, cs);
      NoneYet(s0, d0, handle, data);
      if data == [] {
        OneMoreFits(d0, handle, cs, 0);
        ok := SendChunk(handle, []);
        OneMoreRequest(s0, s0, stream.sent, d0, handle, cs, 0);
        AllSent(s0, stream.sent, d0, handle, cs, ok);
        return;
      }
      var at := 0;
      ghost var k := 0;
      while at < |data|
        invariant at <= |data| && k <= |cs| && drawn == d0 + k
        invariant at == |data| <==> k == |cs|
        invariant at < |data| ==> Chunks(data[at..]) == cs[k..]
        invariant Progress(s0, stream.sent, d0, handle, cs, k)
      {
        var n := if |data| - at < MAX_SEND_CHUNK then |data| - at else MAX_SEND_CHUNK;
        NextChunk(data, at, n, cs, k);
        OneMoreFits(d0, handle, cs, k);
        ghost var s1 := stream.sent;
        ok := SendChunk(handle, data[at..at + n]);
        OneMoreRequest(s0, s1, stream.sent, d0, handle, cs, k);
        if !ok {
          return;
        }
        at := at + n;
        k := k + 1;
      }
      ok := true;
      AllSent(s0, stream.sent, d0, handle, cs, ok);
    }
  }

  /** `sent` is `before` and the frames of the first `k` requests. */
  ghost predicate Progress(before: seq<byte>, sent: seq<byte>, drawn: nat, handle: nat, chunks: seq<seq<byte>>, k: nat)
    requires k <= |chunks|
  {
    && AllFit(Requests(drawn, handle, chunks[..k]))
    && sent == before + Join(Requests(drawn, handle, chunks[..k]))
  }

  lemma NoneYet(before: seq<byte>, drawn: nat, handle: nat, data: seq<byte>)
    ensures Progress(before, before, drawn, handle, Chunks(data), 0)
    ensures Chunks(data[0..]) == Chunks(data)[0..]
    ensures data == [] ==> Chunks(data) == [[]]
  {
    assert data[0..] == data;
  }

  lemma AllSent(before: seq<byte>, sent: seq<byte>, drawn: nat, handle: nat, chunks: seq<seq<byte>>, ok: bool)
    requires AllFit(Requests(drawn, handle, chunks))
    requires ok ==> Progress(before, sent, drawn, handle, chunks, |chunks|)
    ensures ok ==> sent == before + Join(Requests(drawn, handle, chunks))
  {
    assert chunks[..|chunks|] == chunks;
  }

  /** Where the loop's next chunk stands among `Chunks`. */
  lemma NextChunk(data: seq<byte>, at: nat, n: nat, cs: seq<seq<byte>>, k: nat)
    requires at < |data| && k <= |cs| && Chunks(data[at..]) == cs[k..]
    requires n == if |data| - at < MAX_SEND_CHUNK then |data| - at else MAX_SEND_CHUNK
    ensures k < |cs| && cs[k] == data[at..at + n]
    ensures at + n == |data| <==> k + 1 == |cs|
    ensures at + n < |data| ==> Chunks(data[at + n..]) == cs[k + 1..]
  {
    assert cs[k] == cs[k..][0] && cs[k + 1..] == cs[k..][1..];
    assert data[at..][n..] == data[at + n..] && data[at..][..n] == data[at..at + n];
  }

  lemma OneMoreFits(drawn: nat, handle: nat, chunks: seq<seq<byte>>, k: nat)
    requires Sendable(drawn, handle, chunks) && k < |chunks|
    ensures drawn + k + 1 < U64 && handle < U64 && |chunks[k]| <= MAX_SEND_CHUNK
  {
    assert chunks[k] in chunks;
  }

  /** Whatever part of the next frame went out, the stream is still a front of all frames. */
  lemma OneMoreRequest(before: seq<byte>, sent: seq<byte>, after: seq<byte>,
                       drawn: nat, handle: nat, chunks: seq<seq<byte>>, k: nat)
    requires Sendable(drawn, handle, chunks) && k < |chunks|
    requires Progress(before, sent, drawn, handle, chunks, k)
    requires |SendBody(drawn + k + 1, handle, chunks[k])| <= MAX_FRAME
    requires sent <= after <= sent + FrameOf(SendBody(drawn + k + 1, handle, chunks[k]))
    ensures AllFit(Requests(drawn, handle, chunks))
    ensures before <= after <= before + Join(Requests(drawn, handle, chunks))
    ensures after == sent + FrameOf(SendBody(drawn + k + 1, handle, chunks[k])) ==>
              Progress(before, after, drawn, handle, chunks, k + 1)
  {
    hide SendBody, FrameOf, Join, AllFit, Requests, Sendable;
    var rs, front := Requests(drawn, handle, chunks), Requests(drawn, handle, chunks[..k]);
    var b := SendBody(drawn + k + 1, handle, chunks[k]);
    RequestsFit(drawn, handle, chunks);
    RequestsSnoc(drawn, handle, chunks, k);
    RequestsPrefix(drawn, handle, chunks, k + 1);
    JoinPrefix(rs, k + 1);
    JoinSnoc(front, b);
    FrontGrows(before, sent, after, FrameOf(b), Join(front), Join(rs));
  }

  lemma FrontGrows(before: seq<byte>, sent: seq<byte>, after: seq<byte>,
                   frame: seq<byte>, done: seq<byte>, all: seq<byte>)
    requires sent == before + done && done + frame <= all
    requires sent <= after <= sent + frame
    ensures before <= after <= before + all
    ensures after == sent + frame ==> after == before + (done + frame)
  {
    assert sent + frame == before + (done + frame);
  }

  lemma {:induction false} JoinPrefix(bodies: seq<Body>, k: nat)
    requires AllFit(bodies) && k <= |bodies|
    ensures AllFit(bodies[..k]) && Join(bodies[..k]) <= Join(bodies)
    decreases |bodies|
  {
    assert forall b | b in bodies[..k] :: b in bodies;
    if k > 0 {
      assert forall b | b in bodies[1..] :: b in bodies;
      assert bodies[..k][1..] == bodies[1..][..k - 1];
      JoinPrefix(bodies[1..], k - 1);
    }
  }
}
