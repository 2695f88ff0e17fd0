/**
 A full AX.25 socket address: filled from callsign tokens by libax25
 (`fill_sax`, crates/libax25/src/addr.rs) and read back by the interposer
 (`read_digipeaters`, crates/ax25-interpose/src/addr.rs).
 */
module Sockaddr {
  import opened Bytes
  import opened Callsign

  type Token = seq<byte>

  const AF_AX25 := 3
  const MAX_DIGIS := 8
  /** Sizes of `ax25_address`, `sockaddr_ax25` and `full_sockaddr_ax25`. */
  const ADDRESS_SIZE := 7
  const SHORT_SIZE := 16
  const FULL_SIZE := 72

  /** The contents of a `full_sockaddr_ax25`. */
  datatype Image = Image(family: int, call: seq<byte>, ndigis: int, digis: seq<seq<byte>>)

  predicate WellFormed(m: Image) {
    |m.call| == 7 && |m.digis| == MAX_DIGIS && forall i | 0 <= i < MAX_DIGIS :: |m.digis[i]| == 7
  }

  // ---- What is placed --------------------------------------------------

  /** "V" or "VIA" in any case. */
  predicate IsVia(t: Token) {
    || (|t| == 1 && Upper(t[0]) == 86)
    || (|t| == 3 && Upper(t[0]) == 86 && Upper(t[1]) == 73 && Upper(t[2]) == 65)
  }

  function AfterVia(ts: seq<Token>): (r: seq<Token>)
    ensures r == [] || !IsVia(r[0])
    ensures |r| <= |ts|
  {
    if ts != [] && IsVia(ts[0]) then AfterVia(ts[1..]) else ts
  }

  /** The callsign and the digipeaters, separators dropped; no token means one empty callsign. */
  function Path(ts: seq<Token>): (p: seq<Token>)
    ensures p != []
  {
    if ts == [] then [[]] else [ts[0]] + AfterVia(ts[1..])
  }

  function Front<T>(s: seq<T>, n: nat): seq<T> {
    if |s| <= n then s else s[..n]
  }

  /** The tokens that are looked at. */
  function Tried(ts: seq<Token>): seq<Token> {
    Front(Path(ts), MAX_DIGIS + 1)
  }

  /** How many of `ts` encode before the first that does not. */
  function Accepted(ts: seq<Token>, i: nat): (n: nat)
    requires i <= |ts|
    ensures i <= n <= |ts|
    ensures forall j | i <= j < n :: Encoded(ts[j]).Entry?
    ensures n < |ts| ==> !Encoded(ts[n]).Entry?
    decreases |ts| - i
  {
    if i < |ts| && Encoded(ts[i]).Entry? then Accepted(ts, i + 1) else i
  }

  lemma {:induction false} AcceptedIs(ts: seq<Token>, i: nat, n: nat)
    requires i <= n <= |ts|
    requires forall j | i <= j < n :: Encoded(ts[j]).Entry?
    requires n < |ts| ==> !Encoded(ts[n]).Entry?
    ensures Accepted(ts, i) == n
    decreases n - i
  {
    hide Encoded;
    if i < n {
      AcceptedIs(ts, i + 1, n);
    }
  }

  lemma EntryIsSeven(t: Token)
    requires Encoded(t).Entry?
    ensures |Encoded(t).address| == 7
  {
  }

  /** The first `n` of `ts` written over `m`: the call, then the digipeater slots. */
  function Written(m: Image, ts: seq<Token>, n: nat): Image
    requires |m.digis| == MAX_DIGIS && n <= |ts| && forall j | 0 <= j < n :: Encoded(ts[j]).Entry?
  {
    m.(call := if n > 0 then Encoded(ts[0]).address else m.call,
    digis := seq(MAX_DIGIS, i requires 0 <= i < MAX_DIGIS =>
      if i + 1 < n then Encoded(ts[i + 1]).address else m.digis[i]))
  }

  datatype Filling = Size(bytes: int) | MinusOne | Panicked

  /** The count and the family are only written when every token tried was accepted. */
  function Filled(m: Image, ts: seq<Token>): Image
    requires |m.digis| == MAX_DIGIS
  {
    var t := Tried(ts);
    var n := Accepted(t, 0);
    if n == |t| then Written(m, t, n).(family := AF_AX25, ndigis := n - 1) else Written(m, t, n)
  }

  function Outcome(ts: seq<Token>): Filling {
    var t := Tried(ts);
    var n := Accepted(t, 0);
    if n == |t| then Size(FULL_SIZE) else if Encoded(t[n]).Panics? then Panicked else MinusOne
  }

  // ---- Reading back ----------------------------------------------------

  function Texts(addresses: seq<seq<byte>>): (r: seq<Token>)
    requires forall i | 0 <= i < |addresses| :: |addresses[i]| == 7
    ensures |r| == |addresses|
  {
    seq(|addresses|, i requires 0 <= i < |addresses| => Decoded(addresses[i]))
  }

  function NonEmpty(ts: seq<Token>): seq<Token> {
    if ts == [] then [] else (if ts[0] == [] then [] else [ts[0]]) + NonEmpty(ts[1..])
  }

  /** How many slots a buffer of `len` bytes shows. */
  function SlotsRead(ndigis: int, len: nat): (n: nat)
    ensures n <= MAX_DIGIS
  {
    if len < SHORT_SIZE || ndigis <= 0 then 0
    else
      var fit := (len - SHORT_SIZE) / ADDRESS_SIZE;
      var n := if ndigis < fit then ndigis else fit;
      if n < MAX_DIGIS then n else MAX_DIGIS
  }

  function Digipeaters(m: Image, len: nat): seq<Token>
    requires WellFormed(m)
  {
    NonEmpty(Texts(m.digis[..SlotsRead(m.ndigis, len)]))
  }

  // ---- In place --------------------------------------------------------

  class FullSockaddr {
    var family: int
    var call: seq<byte>
    var ndigis: int
    const digis: array<seq<byte>>

    ghost predicate Valid()
      reads this, digis
    {
      digis.Length == MAX_DIGIS && WellFormed(Contents())
    }

    function Contents(): Image
      reads this, digis
    {
      Image(family, call, ndigis, digis[..])
    }

    /** Writes as it goes, so a refusal leaves what was placed before it. */
    method FillSax(tokens: seq<Token>) returns (r: Filling)
      requires Valid()
      modifies this, digis
      ensures Valid()
      ensures Contents() == Filled(old(Contents()), tokens)
      ensures r == Outcome(tokens)
    {
      hide Encoded, Path, AfterVia, IsVia, Written, OnPath, Filled, Outcome;
      ghost var m := Contents();
      var toks := if tokens == [] then [[]] else tokens;
      StartOfPath(m, tokens, toks);
      var n := 0;
      var i := 0;
      while i < |toks|
        invariant i <= |toks| && n <= MAX_DIGIS && n <= |Path(toks)|
        invariant forall j | 0 <= j < n :: Encoded(Path(toks)[j]).Entry?
        invariant OnPath(toks, i, n)
        invariant digis.Length == MAX_DIGIS
        invariant Contents() == Written(m, Path(toks), n)
      {
        var tok := toks[i];
        i := i + 1;
        if n == 1 && IsVia(tok) {
          SkipSeparator(toks, i - 1);
          continue;
        }
        NextOnPath(toks, i - 1, n);
        var e := EncodeEntry(tok);
        match e {
          case Entry(a) =>
            ghost var before := digis[..];
            if n == 0 {
              call := a;
            } else {
              digis[n - 1] := a;
              assert digis[..] == before[n - 1 := a];
            }
          case Rejected => Stopped(m, tokens, n); return MinusOne;
          case Panics => Stopped(m, tokens, n); return Panicked;
        }
        OneMoreWritten(m, Path(toks), n);
        n := n + 1;
        if n > MAX_DIGIS {
          break;
        }
      }
      EndOfPath(toks, i, n);
      Finished(m, tokens, n);
      ndigis := n - 1;
      family := AF_AX25;
      r := Size(FULL_SIZE);
    }
  }

  /** After `i` tokens `n` are placed: they are the front of the path and the rest of it is still to come. */
  ghost predicate OnPath(toks: seq<Token>, i: nat, n: nat) {
    && i <= |toks| && n <= |Path(toks)|
    && (n == 0 ==> i == 0)
    && (n > 0 ==> Path(toks)[n..] == if n == 1 then AfterVia(toks[i..]) else toks[i..])
    && forall j | 0 <= j < n :: Encoded(Path(toks)[j]).Entry?
  }

  lemma StartOfPath(m: Image, tokens: seq<Token>, toks: seq<Token>)
    requires WellFormed(m) && toks == if tokens == [] then [[]] else tokens
    ensures Path(toks) == Path(tokens) && OnPath(toks, 0, 0) && Written(m, Path(toks), 0) == m
  {
    assert Written(m, Path(toks), 0).digis == m.digis;
  }

  lemma SkipSeparator(toks: seq<Token>, i: nat)
    requires i < |toks| && OnPath(toks, i, 1) && IsVia(toks[i])
    ensures OnPath(toks, i + 1, 1)
  {
    assert toks[i..][1..] == toks[i + 1..];
  }

  /** The token in hand is the next of the path, unless it is a separator. */
  lemma NextOnPath(toks: seq<Token>, i: nat, n: nat)
    requires i < |toks| && OnPath(toks, i, n) && !(n == 1 && IsVia(toks[i]))
    ensures n < |Path(toks)| && Path(toks)[n] == toks[i]
    ensures forall j | 0 <= j < n :: Encoded(Path(toks)[j]).Entry?
    ensures Encoded(toks[i]).Entry? ==> OnPath(toks, i + 1, n + 1)
  {
    hide Encoded, IsVia;
    var rest := toks[i..];
    assert rest[0] == toks[i] && rest[1..] == toks[i + 1..];
    if n > 0 {
      assert Path(toks)[n..] == rest;
      assert Path(toks)[n..][1..] == Path(toks)[n + 1..];
      assert Path(toks)[n..][0] == Path(toks)[n];
    }
  }

  /** The loop ends with the path used up or nine tokens placed. */
  lemma EndOfPath(toks: seq<Token>, i: nat, n: nat)
    requires toks != [] && OnPath(toks, i, n) && n <= MAX_DIGIS + 1
    requires i == |toks| || n == MAX_DIGIS + 1
    ensures n == |Tried(toks)|
    ensures forall j | 0 <= j < n :: Encoded(Path(toks)[j]).Entry?
  {
    hide Encoded, IsVia;
    if i == |toks| {
      assert toks[i..] == [];
      assert Path(toks)[n..] == [];
    }
  }

  lemma OneMoreWritten(m: Image, ts: seq<Token>, n: nat)
    requires WellFormed(m) && n < |ts| && n <= MAX_DIGIS && forall j | 0 <= j <= n :: Encoded(ts[j]).Entry?
    ensures Written(m, ts, n + 1) ==
            if n == 0 then Written(m, ts, n).(call := Encoded(ts[0]).address)
            else Written(m, ts, n).(digis := Written(m, ts, n).digis[n - 1 := Encoded(ts[n]).address])
  {
    hide Encoded;
    var a, b := Written(m, ts, n), Written(m, ts, n + 1);
    assert n == 0 ==> a.digis == b.digis;
    assert n > 0 ==> b.digis == a.digis[n - 1 := Encoded(ts[n]).address];
  }

  lemma Stopped(m: Image, tokens: seq<Token>, n: nat)
    requires WellFormed(m) && n < |Path(tokens)| && n <= MAX_DIGIS
    requires forall j | 0 <= j < n :: Encoded(Path(tokens)[j]).Entry?
    requires !Encoded(Path(tokens)[n]).Entry?
    ensures Filled(m, tokens) == Written(m, Path(tokens), n) && WellFormed(Filled(m, tokens))
    ensures Outcome(tokens) == if Encoded(Path(tokens)[n]).Panics? then Panicked else MinusOne
  {
    hide Encoded, IsVia, Path;
    var t := Tried(tokens);
    assert forall j | 0 <= j <= n :: t[j] == Path(tokens)[j];
    AcceptedIs(t, 0, n);
    WrittenIsWellFormed(m, t, n);
  }

  lemma Finished(m: Image, tokens: seq<Token>, n: nat)
    requires WellFormed(m) && n == |Tried(tokens)|
    requires forall j | 0 <= j < n :: Encoded(Path(tokens)[j]).Entry?
    ensures Filled(m, tokens) == Written(m, Path(tokens), n).(family := AF_AX25, ndigis := n - 1)
    ensures WellFormed(Filled(m, tokens)) && Outcome(tokens) == Size(FULL_SIZE)
  {
    hide Encoded, IsVia, Path;
    var t := Tried(tokens);
    assert forall j | 0 <= j < n :: t[j] == Path(tokens)[j];
    AcceptedIs(t, 0, n);
    WrittenIsWellFormed(m, t, n);
  }

  lemma WrittenIsWellFormed(m: Image, ts: seq<Token>, n: nat)
    requires WellFormed(m) && n <= |ts| && forall j | 0 <= j < n :: Encoded(ts[j]).Entry?
    ensures WellFormed(Written(m, ts, n))
  {
    forall j | 0 <= j < n ensures |Encoded(ts[j]).address| == 7 {
      EntryIsSeven(ts[j]);
    }
  }

  // ---- What a fill writes, in so many words ----------------------------

  /** Which tokens are separators: "V" and "VIA", each letter in either case, and nothing else. */
  lemma SeparatorsAre(t: Token)
    ensures IsVia(t) <==>
              || (|t| == 1 && (t[0] == 86 || t[0] == 118))
              || (|t| == 3 && (t[0] == 86 || t[0] == 118) && (t[1] == 73 || t[1] == 105) && (t[2] == 65 || t[2] == 97))
    ensures IsVia([86]) && IsVia([118]) && IsVia([86, 73, 65]) && IsVia([118, 105, 97])
  {
  }

  /** A fill of a callsign, a separator however spelled, and a path that does not start with another. */
  lemma SpelledSeparatorIsSkipped(m: Image, call: Token, via: Token, vias: seq<Token>)
    requires WellFormed(m) && (vias == [] || !IsVia(vias[0]))
    requires via == [86] || via == [118] || via == [86, 73, 65] || via == [118, 105, 97]
    ensures Path([call, via] + vias) == [call] + vias
    ensures Filled(m, [call, via] + vias) == Filled(m, [call] + vias)
  {
    SeparatorsAre(via);
    SeparatorIsIgnored(m, call, via, vias);
    assert ([call, via] + vias)[1..] == [via] + vias && ([via] + vias)[1..] == vias;
  }

  /**
   What is on the buffer after a fill of the path `p`, if its first `n` tokens are
   accepted and either they are all that is tried or the next one is not accepted.
   */
  lemma FillWrites(m: Image, tokens: seq<Token>, n: nat)
    requires WellFormed(m)
    requires var p := Path(tokens);
             && n <= |p| && n <= 9 && (forall j | 0 <= j < n :: Encoded(p[j]).Entry?)
             && (n == |p| || n == 9 || !Encoded(p[n]).Entry?)
    ensures var p := Path(tokens);
            var f := Filled(m, tokens);
            var whole := n == |p| || n == 9;
            && |f.digis| == 8
            && f.call == (if n > 0 then Encoded(p[0]).address else m.call)
            && (forall i | 0 <= i < 8 :: f.digis[i] == if i + 1 < n then Encoded(p[i + 1]).address else m.digis[i])
            && f.ndigis == (if whole then n - 1 else m.ndigis) && f.family == (if whole then 3 else m.family)
            && Outcome(tokens) == if whole then Size(72) else if Encoded(p[n]).Panics? then Panicked else MinusOne
  {
    hide Encoded, IsVia;
    var p, t := Path(tokens), Tried(tokens);
    assert forall j | 0 <= j < |t| :: t[j] == p[j];
    AcceptedIs(t, 0, n);
  }

  /** The slots that a buffer shows: the most that its count, its length and the eight places allow. */
  lemma SlotsReadIs(ndigis: int, len: nat)
    ensures var k := SlotsRead(ndigis, len);
            && k <= 8
            && (k > 0 ==> k <= ndigis && 16 + 7 * k <= len)
            && (k < 8 ==> k + 1 > ndigis || 16 + 7 * (k + 1) > len)
  {
  }

  /** The texts handed out are those that are not empty, in order. */
  lemma {:induction false} NonEmptyIs(a: seq<Token>, t: Token, b: seq<Token>)
    ensures NonEmpty(a + [t] + b) == NonEmpty(a) + (if t == [] then [] else [t]) + NonEmpty(b)
    decreases |a|
  {
    hide NonEmpty;
    NonEmptyStep(a + [t] + b);
    if a == [] {
      assert NonEmpty(a) == [] by {
        NonEmptyStep(a);
      }
      assert (a + [t] + b)[0] == t && (a + [t] + b)[1..] == b;
    } else {
      NonEmptyStep(a);
      assert (a + [t] + b)[0] == a[0] && (a + [t] + b)[1..] == a[1..] + [t] + b;
      NonEmptyIs(a[1..], t, b);
    }
  }

  lemma NonEmptyStep(ts: seq<Token>)
    ensures NonEmpty(ts) == if ts == [] then [] else (if ts[0] == [] then [] else [ts[0]]) + NonEmpty(ts[1..])
  {
  }

  // ---- Fill, then read -------------------------------------------------

  /** What a decode makes of each accepted token. */
  function Normalised(ts: seq<Token>): (r: seq<Token>)
    requires forall j | 0 <= j < |ts| :: Encoded(ts[j]).Entry?
    ensures |r| == |ts|
  {
    seq(|ts|, i requires 0 <= i < |ts| => Decoded(Encoded(ts[i]).address))
  }

  /**
     Whatever the buffer held before, the interposer reads the digipeater tokens
     just placed, in order and normalised, as many as its length shows; empty
     ones are dropped.
   */
  lemma FillThenRead(m: Image, tokens: seq<Token>, len: nat)
    requires WellFormed(m) && Outcome(tokens).Size?
    ensures WellFormed(Filled(m, tokens))
    ensures forall j | 0 <= j < |Tried(tokens)| :: Encoded(Tried(tokens)[j]).Entry?
    ensures Digipeaters(Filled(m, tokens), len) ==
            NonEmpty(Normalised(Tried(tokens)[1..])[..SlotsRead(|Tried(tokens)| - 1, len)])
  {
    var t := Tried(tokens);
    var n := Accepted(t, 0);
    WrittenIsWellFormed(m, t, n);
    var k := SlotsRead(n - 1, len);
    var f := Filled(m, tokens);
    hide Encoded, Decoded, Path;
    forall i | 0 <= i < k ensures Texts(f.digis[..k])[i] == Normalised(t[1..])[i] {
      assert f.digis[i] == Encoded(t[i + 1]).address && t[1..][i] == t[i + 1];
    }
    assert Texts(f.digis[..k]) == Normalised(t[1..])[..k];
  }

  /** A via call as the other end would write it. */
  ghost predicate IsViaCall(t: Token) {
    t != [] && CanonicalText(t)
  }

  lemma {:induction false} NothingDropped(ts: seq<Token>)
    requires forall i | 0 <= i < |ts| :: ts[i] != []
    ensures NonEmpty(ts) == ts
  {
    if ts != [] {
      assert ts[0] != [];
      assert forall i | 0 <= i < |ts[1..]| :: ts[1..][i] == ts[i + 1];
      NothingDropped(ts[1..]);
    }
  }

  /** Canonical calls behind the callsign all encode, and read back as written. */
  lemma CanonicalPathReadsBack(m: Image, tokens: seq<Token>)
    requires WellFormed(m)
    requires Encoded(Tried(tokens)[0]).Entry?
    requires forall i | 1 <= i < |Tried(tokens)| :: IsViaCall(Tried(tokens)[i])
    ensures Outcome(tokens).Size? && WellFormed(Filled(m, tokens))
    ensures Digipeaters(Filled(m, tokens), FULL_SIZE) == Tried(tokens)[1..]
  {
    hide Encoded, Decoded, Path, CanonicalText, IsViaCall, Digipeaters, Filled, Normalised, NonEmpty;
    var t := Tried(tokens);
    var vias := t[1..];
    CanonicalIsNormal(vias);
    forall i | 0 <= i < |t| ensures Encoded(t[i]).Entry? {
      assert i > 0 ==> t[i] == vias[i - 1];
    }
    AcceptedIs(t, 0, |t|);
    FillThenRead(m, tokens, FULL_SIZE);
    assert SlotsRead(|t| - 1, FULL_SIZE) == |t| - 1;
    assert vias[..|t| - 1] == vias;
  }

  lemma CanonicalIsNormal(vias: seq<Token>)
    requires forall i | 0 <= i < |vias| :: IsViaCall(vias[i])
    ensures forall i | 0 <= i < |vias| :: Encoded(vias[i]).Entry?
    ensures Normalised(vias) == vias && NonEmpty(vias) == vias
  {
    forall i | 0 <= i < |vias|
      ensures vias[i] != [] && Encoded(vias[i]).Entry? && Decoded(Encoded(vias[i]).address) == vias[i] {
      DecodeInvertsEncodeIff(vias[i]);
    }
    hide Encoded, Decoded, CanonicalText, IsViaCall;
    NothingDropped(vias);
  }

  /**
     A callsign followed by any via calls, of which the first eight are canonical:
     the interposer reads back exactly those eight, in order, if and only if the
     first of them is not itself spelled V or VIA.
   */
  lemma ViaPathRoundTripsIff(m: Image, call: Token, vias: seq<Token>)
    requires WellFormed(m) && Encoded(call).Entry?
    requires forall i | 0 <= i < |vias| :: i < MAX_DIGIS || IsVia(vias[0]) ==> IsViaCall(vias[i])
    ensures Outcome([call] + vias).Size? && WellFormed(Filled(m, [call] + vias))
    ensures Digipeaters(Filled(m, [call] + vias), FULL_SIZE) == Front(vias, MAX_DIGIS) <==>
            vias == [] || !IsVia(vias[0])
  {
    hide Encoded, CanonicalText, Digipeaters, Filled, WellFormed, Outcome;
    var tokens := [call] + vias;
    assert tokens[1..] == vias;
    var rest := AfterVia(vias);
    assert Path(tokens) == [call] + rest;
    assert Tried(tokens)[0] == call && Tried(tokens)[1..] == Front(rest, MAX_DIGIS);
    AfterViaIsTail(vias);
    assert forall i | 1 <= i < |Tried(tokens)| :: Tried(tokens)[i] == rest[i - 1];
    CanonicalPathReadsBack(m, tokens);
    if vias != [] && IsVia(vias[0]) {
      assert Front(vias, MAX_DIGIS)[0] == vias[0];
      assert rest == [] || Front(rest, MAX_DIGIS)[0] == rest[0];
    }
  }

  lemma {:induction false} AfterViaIsTail(ts: seq<Token>)
    ensures |AfterVia(ts)| <= |ts| && AfterVia(ts) == ts[|ts| - |AfterVia(ts)|..]
  {
    if ts != [] && IsVia(ts[0]) {
      AfterViaIsTail(ts[1..]);
    }
  }

  /** A separator between the call and the path changes nothing. */
  lemma SeparatorIsIgnored(m: Image, call: Token, via: Token, vias: seq<Token>)
    requires WellFormed(m) && IsVia(via)
    ensures Filled(m, [call, via] + vias) == Filled(m, [call] + vias)
    ensures Outcome([call, via] + vias) == Outcome([call] + vias)
  {
    var a, b := [call, via] + vias, [call] + vias;
    assert a[1..] == [via] + vias && a[1..][1..] == vias && b[1..] == vias;
    assert Path(a) == Path(b);
  }
}
