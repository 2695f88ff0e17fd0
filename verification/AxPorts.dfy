/**
 The port table of libax25 (crates/libax25/src/config.rs): parsing an axports
 file, finding a port, and walking the ports with `ax25_config_get_next`.
 */
module AxPorts {
  import opened Bytes
  import Callsign
  import Text

  datatype Port = Port(name: string, call: string, baud: int, paclen: int, window: int, description: string)

  // ---- Strings ---------------------------------------------------------

  function UpperChar(c: char): char {
    if 'a' <= c <= 'z' then (c as int - 32) as char else c
  }

  /** `to_ascii_uppercase`. */
  function Uppercase(s: string): (r: string)
    ensures |r| == |s| && forall i | 0 <= i < |s| :: r[i] == UpperChar(s[i])
  {
    seq(|s|, i requires 0 <= i < |s| => UpperChar(s[i]))
  }

  predicate EqIgnoreCase(a: string, b: string) {
    Uppercase(a) == Uppercase(b)
  }

  /** The Unicode White_Space property. */
  predicate IsWhite(c: char) {
    var n := c as int;
    || 9 <= n <= 13 || n == 32 || n == 0x85 || n == 0xA0 || n == 0x1680
    || 0x2000 <= n <= 0x200A || n == 0x2028 || n == 0x2029 || n == 0x202F || n == 0x205F || n == 0x3000
  }

  function TrimStart(s: string): (r: string)
    ensures r == [] || !IsWhite(r[0])
  {
    if s != [] && IsWhite(s[0]) then TrimStart(s[1..]) else s
  }

  function TrimEnd(s: string): string {
    if s != [] && IsWhite(s[|s| - 1]) then TrimEnd(s[..|s| - 1]) else s
  }

  function TrimReturns(s: string): string {
    if s != [] && s[|s| - 1] == '\r' then TrimReturns(s[..|s| - 1]) else s
  }

  function Find(s: string, c: char, d: char, i: nat): (r: nat)
    requires i <= |s|
    ensures i <= r <= |s|
    ensures forall j | i <= j < r :: s[j] != c && s[j] != d
    ensures r < |s| ==> s[r] == c || s[r] == d
    decreases |s| - i
  {
    if i < |s| && s[i] != c && s[i] != d then Find(s, c, d, i + 1) else i
  }

  /** `str::lines`, carriage returns left on. */
  function Lines(s: string): seq<string>
    decreases |s|
  {
    if s == [] then []
    else
      var e := Find(s, '\n', '\n', 0);
      [s[..e]] + if e < |s| then Lines(s[e + 1..]) else []
  }

  function Token(rest: string): (r: (Option<string>, string))
    ensures r.0.Some? ==> IsToken(r.0.value)
  {
    var s := TrimStart(rest);
    if s == [] then (None, s)
    else
      var e := Find(s, ' ', '\t', 0);
      (Some(s[..e]), s[e..])
  }

  predicate IsToken(t: string) {
    t != [] && ' ' !in t && '\t' !in t
  }

  /** `str::parse::<i32>`. */
  function ParsedI32(s: string): Option<int> {
    var ds := if s != [] && (s[0] == '+' || s[0] == '-') then s[1..] else s;
    if ds == [] || exists c | c in ds :: !Text.IsDigit(c) then None
    else
      var n: int := Text.DigitsValue(ds);
      var v := if s[0] == '-' then -n else n;
      if -0x8000_0000 <= v < 0x8000_0000 then Some(v) else None
  }

  function OrElse(v: Option<int>, d: int): int {
    if v.Some? then v.value else d
  }

  /** Where "-0" first occurs. */
  function DashZero(s: string, i: nat): (r: nat)
    requires i <= |s|
    ensures i <= r <= |s|
    ensures forall j | i <= j < r && j + 1 < |s| :: !(s[j] == '-' && s[j + 1] == '0')
    ensures r < |s| ==> r + 1 < |s| && s[r] == '-' && s[r + 1] == '0'
    decreases |s| - i
  {
    if i + 1 < |s| then (if s[i] == '-' && s[i + 1] == '0' then i else DashZero(s, i + 1)) else |s|
  }

  /** The stored form of a callsign: upper case, cut at its first "-0". */
  function StoredCall(token: string): (c: string)
    ensures IsStored(c)
  {
    var u := Uppercase(token);
    u[..DashZero(u, 0)]
  }

  predicate IsStored(c: string) {
    && (forall i | 0 <= i < |c| :: UpperChar(c[i]) == c[i])
    && (forall j | 0 <= j < |c| - 1 :: !(c[j] == '-' && c[j + 1] == '0'))
  }

  /** The cut is the removal of a trailing "-0" exactly if no "-0" stands before the end. */
  lemma CutIsTrailingIff(token: string)
    ensures var u := Uppercase(token);
            (StoredCall(token) == u || StoredCall(token) + "-0" == u) <==>
            forall j | 0 <= j < |u| - 2 :: !(u[j] == '-' && u[j + 1] == '0')
  {
    var u := Uppercase(token);
    var d := DashZero(u, 0);
    if d < |u| && d + 2 == |u| {
      assert u == u[..d] + "-0";
    }
  }

  /** The stored form is the token in upper case up to its first "-0", wherever that stands. */
  lemma StoredCallIs(token: string, k: nat)
    requires k <= |token|
    requires k == |token| || (k + 1 < |token| && token[k] == '-' && token[k + 1] == '0')
    requires forall j | 0 <= j < k && j + 1 < |token| :: !(token[j] == '-' && token[j + 1] == '0')
    ensures StoredCall(token) == Uppercase(token)[..k]
  {
    var u := Uppercase(token);
    assert forall j | 0 <= j < |u| :: (u[j] == '-' <==> token[j] == '-') && (u[j] == '0' <==> token[j] == '0');
    assert DashZero(u, 0) == k;
  }

  /** Two texts are the same with case ignored exactly if they differ in the case of ASCII letters only. */
  lemma EqIgnoreCaseIff(a: string, b: string)
    ensures EqIgnoreCase(a, b) <==>
            && |a| == |b|
            && forall i | 0 <= i < |a| ::
                 || a[i] == b[i]
                 || ('a' <= a[i] <= 'z' && b[i] as int == a[i] as int - 32)
                 || ('a' <= b[i] <= 'z' && a[i] as int == b[i] as int - 32)
  {
    var u, v := Uppercase(a), Uppercase(b);
    if |a| == |b| {
      assert u == v <==> forall i | 0 <= i < |a| :: u[i] == v[i];
    }
  }

  /** Lines end at every line feed; what is behind the last one is a line unless it is empty. */
  lemma LinesAre(a: string, rest: string)
    requires '\n' !in a
    ensures Lines(a + "\n" + rest) == [a] + Lines(rest)
    ensures Lines(a) == if a == [] then [] else [a]
  {
    var s := a + "\n" + rest;
    assert s[|a|] == '\n' && forall i | 0 <= i < |a| :: s[i] == a[i] && a[i] in a;
    assert Find(s, '\n', '\n', 0) == |a|;
    assert s[..|a|] == a && s[|a| + 1..] == rest;
    assert Find(a, '\n', '\n', 0) == |a|;
    assert a[..|a|] == a;
  }

  // ---- Parsing ---------------------------------------------------------

  datatype Fields =
    | Missing
    | Fields(name: string, call: string, baud: string, paclen: string, window: string, desc: string)

  /** Five tokens and a description. */
  function Split(trimmed: string): (f: Fields)
    ensures f.Fields? ==> IsToken(f.name) && f.desc != []
  {
    var (name, r1) := Token(trimmed);
    var (call, r2) := Token(r1);
    var (baud, r3) := Token(r2);
    var (paclen, r4) := Token(r3);
    var (window, r5) := Token(r4);
    var desc := TrimEnd(TrimStart(r5));
    if name.Some? && call.Some? && baud.Some? && paclen.Some? && window.Some? && desc != [] then
      Fields(name.value, call.value, baud.value, paclen.value, window.value, desc)
    else Missing
  }

  datatype Line = Ignored | Found(port: Port) | Crash

  predicate NumbersOk(p: Port) {
    p.baud >= 0 && p.paclen > 0 && p.window > 0
  }

  predicate Encodable(call: string) {
    Callsign.Encoded(Text.Utf8(call)).Entry?
  }

  /** What one line is, on its own. */
  function ReadLine(raw: string): (l: Line)
    ensures l.Found? ==>
              && IsToken(l.port.name) && l.port.description != [] && NumbersOk(l.port)
              && IsStored(l.port.call) && Encodable(l.port.call)
  {
    var trimmed := TrimStart(TrimReturns(raw));
    if trimmed == [] || trimmed[0] == '#' then Ignored
    else
      match Split(trimmed)
      case Missing => Ignored
      case Fields(name, call, baud, paclen, window, desc) =>
        var p := Port(name, StoredCall(call), OrElse(ParsedI32(baud), -1), OrElse(ParsedI32(paclen), 0),
                      OrElse(ParsedI32(window), 0), desc);
        if !NumbersOk(p) then Ignored
        else
          match Callsign.Encoded(Text.Utf8(p.call))
          case Rejected => Ignored
          case Panics => Crash
          case Entry(_) => Found(p)
  }

  // ---- A line written out reads back, and nothing else -------------------

  predicate Blank(s: string) {
    forall i | 0 <= i < |s| :: IsWhite(s[i])
  }

  /** What separates two fields: a space or a tab, and any white space behind it. */
  predicate IsGap(g: string) {
    g != [] && (g[0] == ' ' || g[0] == '\t') && Blank(g)
  }

  /** A field starts with no white space and holds no space and no tab. */
  predicate IsField(t: string) {
    t != [] && !IsWhite(t[0]) && forall i | 0 <= i < |t| :: t[i] != ' ' && t[i] != '\t'
  }

  /** Five fields, each with the gap behind it, and a description. */
  function LineOf(f: Fields, gaps: seq<string>): string
    requires f.Fields? && |gaps| == 5
  {
    f.name + (gaps[0] + (f.call + (gaps[1] + (f.baud + (gaps[2] +
      (f.paclen + (gaps[3] + (f.window + (gaps[4] + f.desc)))))))))
  }

  predicate IsLine(f: Fields, gaps: seq<string>) {
    && f.Fields? && |gaps| == 5 && (forall i | 0 <= i < 5 :: IsGap(gaps[i]))
    && IsField(f.name) && IsField(f.call) && IsField(f.baud) && IsField(f.paclen) && IsField(f.window)
    && f.desc != [] && !IsWhite(f.desc[0]) && !IsWhite(f.desc[|f.desc| - 1])
  }

  lemma {:induction false} TrimStartKeeps(g: string, s: string)
    requires s != [] && !IsWhite(s[0]) && Blank(g)
    ensures TrimStart(g + s) == s
    decreases |g|
  {
    if g == [] {
      assert g + s == s;
    } else {
      assert (g + s)[1..] == g[1..] + s;
      TrimStartKeeps(g[1..], s);
    }
  }

  lemma {:induction false} TrimEndKeeps(s: string, g: string)
    requires s != [] && !IsWhite(s[|s| - 1]) && Blank(g)
    ensures TrimEnd(s + g) == s
    decreases |g|
  {
    if g == [] {
      assert s + g == s;
    } else {
      var n := |g| - 1;
      assert (s + g)[..|s + g| - 1] == s + g[..n];
      TrimEndKeeps(s, g[..n]);
    }
  }

  lemma {:induction false} TrimReturnsKeeps(s: string, g: string) returns (g': string)
    requires s != [] && !IsWhite(s[|s| - 1]) && Blank(g)
    ensures TrimReturns(s + g) == s + g' && Blank(g')
    decreases |g|
  {
    g' := g;
    if g == [] {
      assert s + g == s;
    } else if g[|g| - 1] == '\r' {
      var n := |g| - 1;
      assert (s + g)[..|s + g| - 1] == s + g[..n];
      g' := TrimReturnsKeeps(s, g[..n]);
    }
  }

  /** A field between gaps, the first of which may be missing: the field is popped. */
  lemma TokenIs(before: string, t: string, gap: string, rest: string)
    requires IsField(t) && IsGap(gap) && Blank(before)
    ensures Token(before + (t + (gap + rest))) == (Some(t), gap + rest)
  {
    var s := t + (gap + rest);
    assert s[0] == t[0];
    TrimStartKeeps(before, s);
    assert s[|t|] == gap[0] && forall i | 0 <= i < |t| :: s[i] == t[i];
    assert Find(s, ' ', '\t', 0) == |t|;
    assert s[..|t|] == t && s[|t|..] == gap + rest;
  }

  lemma SplitReads(f: Fields, gaps: seq<string>, tail: string)
    requires IsLine(f, gaps) && Blank(tail)
    ensures Split(LineOf(f, gaps) + tail) == f
  {
    hide Token, IsField, IsWhite, TrimStart, TrimEnd, Blank;
    assert forall k | 0 <= k < 5 :: IsGap(gaps[k]);
    var d := f.desc + tail;
    var r4 := f.window + (gaps[4] + d);
    var r3 := f.paclen + (gaps[3] + r4);
    var r2 := f.baud + (gaps[2] + r3);
    var r1 := f.call + (gaps[1] + r2);
    LineRegroups(f, gaps, tail);
    assert [] + (f.name + (gaps[0] + r1)) == LineOf(f, gaps) + tail;
    NothingIsBlank();
    TokenIs([], f.name, gaps[0], r1);
    TokenIs(gaps[0], f.call, gaps[1], r2);
    TokenIs(gaps[1], f.baud, gaps[2], r3);
    TokenIs(gaps[2], f.paclen, gaps[3], r4);
    TokenIs(gaps[3], f.window, gaps[4], d);
    assert d[0] == f.desc[0];
    TrimStartKeeps(gaps[4], d);
    TrimEndKeeps(f.desc, tail);
  }

  lemma NothingIsBlank()
    ensures Blank([])
  {
  }

  lemma LineRegroups(f: Fields, gaps: seq<string>, tail: string)
    requires f.Fields? && |gaps| == 5
    ensures LineOf(f, gaps) + tail ==
            f.name + (gaps[0] + (f.call + (gaps[1] + (f.baud + (gaps[2] +
              (f.paclen + (gaps[3] + (f.window + (gaps[4] + (f.desc + tail))))))))))
  {
    Append3(f.window, gaps[4], f.desc, tail);
    var r4 := f.window + (gaps[4] + f.desc);
    Append3(f.paclen, gaps[3], r4, tail);
    var r3 := f.paclen + (gaps[3] + r4);
    Append3(f.baud, gaps[2], r3, tail);
    var r2 := f.baud + (gaps[2] + r3);
    Append3(f.call, gaps[1], r2, tail);
    Append3(f.name, gaps[0], f.call + (gaps[1] + r2), tail);
  }

  lemma Append3(a: string, b: string, c: string, d: string)
    ensures (a + (b + c)) + d == a + (b + (c + d))
  {
  }

  /** `raw` is the fields `f` written out, with white space in front and behind. */
  predicate Writes(raw: string, lead: string, f: Fields, gaps: seq<string>, tail: string) {
    IsLine(f, gaps) && Blank(lead) && Blank(tail) && raw == lead + LineOf(f, gaps) + tail
  }

  lemma WrittenIsSplit(raw: string, lead: string, f: Fields, gaps: seq<string>, tail: string)
    requires Writes(raw, lead, f, gaps, tail)
    ensures var t := TrimStart(TrimReturns(raw)); t != [] && t[0] == f.name[0] && Split(t) == f
  {
    var body := LineOf(f, gaps);
    assert body[0] == f.name[0] && body[|body| - 1] == f.desc[|f.desc| - 1];
    assert (lead + body)[|lead + body| - 1] == body[|body| - 1];
    hide LineOf, Split, TrimReturns, TrimStart, IsWhite;
    var tail' := TrimReturnsKeeps(lead + body, tail);
    assert lead + body + tail' == lead + (body + tail') && (body + tail')[0] == body[0];
    TrimStartKeeps(lead, body + tail');
    SplitReads(f, gaps, tail');
  }

  /**
   What a written line is read as, for all fields, gaps and white space around: its
   port, if it is no comment, its numbers fit 32 bits with baud not negative, paclen and
   window positive, and its stored callsign encodes; otherwise it is passed over, or
   crashes the parser.
   */
  lemma WrittenLineIsRead(raw: string, lead: string, f: Fields, gaps: seq<string>, tail: string)
    requires Writes(raw, lead, f, gaps, tail)
    ensures var (b, p, w) := (ParsedI32(f.baud), ParsedI32(f.paclen), ParsedI32(f.window));
            var ok := && f.name[0] != '#' && b.Some? && b.value >= 0
                      && p.Some? && p.value > 0 && w.Some? && w.value > 0;
            && (ReadLine(raw).Found? <==> ok && Encodable(StoredCall(f.call)))
            && (ReadLine(raw).Found? ==>
                  ReadLine(raw).port == Port(f.name, StoredCall(f.call), b.value, p.value, w.value, f.desc))
            && (ReadLine(raw) == Crash <==> ok && PanickingCall(f.call))
            && (ReadLine(raw) == Ignored <==> !ok || (!Encodable(StoredCall(f.call)) && !PanickingCall(f.call)))
  {
    WrittenIsSplit(raw, lead, f, gaps, tail);
    PanickingSurvivesStorage(f.call);
    PanicsIff(StoredCall(f.call));
    hide LineOf, Split, TrimStart, TrimReturns, ParsedI32, StoredCall, IsWhite, IsField, PanickingCall,
         Callsign.Encoded, Text.Utf8;
  }

  // Conversely, a line that is not passed over is a written one.

  lemma {:induction false} StartIsBlank(s: string) returns (w: string)
    ensures Blank(w) && s == w + TrimStart(s)
    decreases |s|
  {
    w := [];
    if s != [] && IsWhite(s[0]) {
      var v := StartIsBlank(s[1..]);
      w := [s[0]] + v;
      assert s == [s[0]] + s[1..];
    }
  }

  lemma {:induction false} EndIsBlank(s: string) returns (w: string)
    ensures Blank(w) && s == TrimEnd(s) + w
    ensures TrimEnd(s) != [] ==> !IsWhite(TrimEnd(s)[|TrimEnd(s)| - 1])
    decreases |s|
  {
    w := [];
    if s != [] && IsWhite(s[|s| - 1]) {
      var v := EndIsBlank(s[..|s| - 1]);
      w := v + [s[|s| - 1]];
      assert s == s[..|s| - 1] + [s[|s| - 1]];
    }
  }

  lemma {:induction false} ReturnsAreBlank(s: string) returns (w: string)
    ensures Blank(w) && s == TrimReturns(s) + w
    decreases |s|
  {
    w := [];
    if s != [] && s[|s| - 1] == '\r' {
      var v := ReturnsAreBlank(s[..|s| - 1]);
      w := v + ['\r'];
      assert s == s[..|s| - 1] + ['\r'];
    }
  }

  /** Where the text behind a field starts, unless it is empty. */
  predicate AtGap(r: string) {
    r == [] || r[0] == ' ' || r[0] == '\t'
  }

  /** A token is a field, behind white space and before a gap or the end. */
  lemma TokenParts(r: string) returns (w: string)
    requires Token(r).0.Some?
    ensures Blank(w) && r == w + (Token(r).0.value + Token(r).1)
    ensures IsField(Token(r).0.value) && AtGap(Token(r).1)
  {
    w := StartIsBlank(r);
    var s := TrimStart(r);
    var e := Find(s, ' ', '\t', 0);
    assert s == s[..e] + s[e..];
    assert e > 0 by {
      assert !IsWhite(s[0]);
    }
  }

  lemma HeadOf(w: string, s: string)
    requires s != []
    ensures (w + s)[0] == if w == [] then s[0] else w[0]
  {
  }

  /** Behind a field the white space before the next text is a gap. */
  lemma GapBefore(r: string, w: string, s: string)
    requires AtGap(r) && Blank(w) && r == w + s && s != [] && !IsWhite(s[0])
    ensures IsGap(w)
  {
    HeadOf(w, s);
  }

  lemma NextField(r: string) returns (gap: string)
    requires AtGap(r) && Token(r).0.Some?
    ensures IsGap(gap) && r == gap + (Token(r).0.value + Token(r).1)
    ensures IsField(Token(r).0.value) && AtGap(Token(r).1)
  {
    gap := TokenParts(r);
    hide Token, IsWhite;
    var s := Token(r).0.value + Token(r).1;
    assert s[0] == Token(r).0.value[0];
    GapBefore(r, gap, s);
  }

  /** What comes apart into fields is a line and white space behind it. */
  lemma SplitIsLine(t: string) returns (gaps: seq<string>, tail: string)
    requires t != [] && !IsWhite(t[0]) && Split(t).Fields?
    ensures IsLine(Split(t), gaps) && Blank(tail) && t == LineOf(Split(t), gaps) + tail
  {
    hide TrimStart, TrimEnd, Token, IsWhite, IsField, AtGap, LineOf;
    var f := Split(t);
    var (_, r1) := Token(t);
    var (_, r2) := Token(r1);
    var (_, r3) := Token(r2);
    var (_, r4) := Token(r3);
    var (_, r5) := Token(r4);
    var w := TokenParts(t);
    NoBlankInFront(t, w, f.name + r1);
    var g0 := NextField(r1);
    var g1 := NextField(r2);
    var g2 := NextField(r3);
    var g3 := NextField(r4);
    var g4: string;
    g4, tail := DescriptionParts(r5);
    gaps := [g0, g1, g2, g3, g4];
    LineRegroups(f, gaps, tail);
  }

  lemma NoBlankInFront(t: string, w: string, s: string)
    requires t != [] && !IsWhite(t[0]) && Blank(w) && t == w + s && s != []
    ensures t == s
  {
    HeadOf(w, s);
  }

  lemma DescriptionParts(r: string) returns (gap: string, tail: string)
    requires AtGap(r) && TrimEnd(TrimStart(r)) != []
    ensures var desc := TrimEnd(TrimStart(r));
            && IsGap(gap) && Blank(tail) && r == gap + (desc + tail)
            && !IsWhite(desc[0]) && !IsWhite(desc[|desc| - 1])
  {
    gap := StartIsBlank(r);
    tail := EndIsBlank(TrimStart(r));
    var d := TrimStart(r);
    assert d[0] == TrimEnd(d)[0];
    GapBefore(r, gap, d);
  }

  /** A line that yields a port or crashes the parser is five fields and a description written out, and no comment. */
  lemma OnlyWrittenLinesAreRead(raw: string)
    requires ReadLine(raw) != Ignored
    ensures exists lead, f, gaps, tail :: Writes(raw, lead, f, gaps, tail) && f.name[0] != '#'
  {
    ReadIsSplit(raw);
    hide TrimReturns, TrimStart, Split, ReadLine, LineOf, IsLine, IsWhite, Blank;
    var r := TrimReturns(raw);
    var behind := ReturnsAreBlank(raw);
    var lead := StartIsBlank(r);
    var gaps, tail := SplitIsLine(TrimStart(r));
    var f := Split(TrimStart(r));
    AroundLine(raw, lead, LineOf(f, gaps), tail, behind);
    StartsWithName(f, gaps, tail);
    assert Writes(raw, lead, f, gaps, tail + behind);
  }

  lemma ReadIsSplit(raw: string)
    requires ReadLine(raw) != Ignored
    ensures var t := TrimStart(TrimReturns(raw)); t != [] && t[0] != '#' && !IsWhite(t[0]) && Split(t).Fields?
  {
    hide Split, TrimReturns, TrimStart;
  }

  lemma StartsWithName(f: Fields, gaps: seq<string>, tail: string)
    requires IsLine(f, gaps)
    ensures f.name != [] && (LineOf(f, gaps) + tail)[0] == f.name[0]
  {
  }

  lemma AroundLine(raw: string, lead: string, line: string, tail: string, behind: string)
    requires raw == lead + (line + tail) + behind && Blank(tail) && Blank(behind)
    ensures raw == lead + line + (tail + behind) && Blank(tail + behind)
  {
    hide IsWhite;
  }

  /** A line of white space and one that starts with a hash are passed over. */
  lemma CommentsAreIgnored(lead: string, rest: string)
    requires Blank(lead)
    ensures ReadLine(lead) == Ignored && ReadLine(lead + ['#'] + rest) == Ignored
  {
    AllWhite(TrimReturns(lead));
    var line := lead + ['#'] + rest;
    ReturnsLeave(line, |lead|);
    var t := TrimReturns(line);
    assert t[..|lead|] == lead && t == lead + t[|lead|..];
    TrimStartKeeps(lead, t[|lead|..]);
    hide Split, ParsedI32, StoredCall, Callsign.Encoded, Text.Utf8;
    ReturnsAreFront(lead);
  }

  lemma {:induction false} AllWhite(s: string)
    ensures Blank(s) ==> TrimStart(s) == []
    decreases |s|
  {
    if s != [] {
      AllWhite(s[1..]);
    }
  }

  lemma {:induction false} ReturnsAreFront(s: string)
    ensures TrimReturns(s) <= s
    decreases |s|
  {
    if s != [] {
      ReturnsAreFront(s[..|s| - 1]);
    }
  }

  /** Trimming stops at the latest at a character that is no carriage return. */
  lemma {:induction false} ReturnsLeave(s: string, k: nat)
    requires k < |s| && s[k] != '\r'
    ensures |TrimReturns(s)| > k && TrimReturns(s) <= s
    decreases |s|
  {
    if s[|s| - 1] == '\r' {
      ReturnsLeave(s[..|s| - 1], k);
    }
  }

  // ---- Numbers ---------------------------------------------------------

  /** `v` if it fits 32 bits. */
  function InI32(v: int): Option<int> {
    if -0x8000_0000 <= v < 0x8000_0000 then Some(v) else None
  }

  lemma DigitsAreRead(t: string)
    requires t != [] && forall c | c in t :: Text.IsDigit(c)
    ensures ParsedI32(t) == InI32(Text.DigitsValue(t))
    ensures ParsedI32(['+'] + t) == InI32(Text.DigitsValue(t)) && ParsedI32(['-'] + t) == InI32(0 - Text.DigitsValue(t))
  {
    assert t[0] in t && Text.IsDigit(t[0]);
    assert (['+'] + t)[1..] == t && (['-'] + t)[1..] == t;
    hide Text.DigitsValue;
  }

  /** Every decimal that 32 bits can hold is read, with or without a sign, and none that they cannot. */
  lemma NumbersAreRead(n: nat)
    ensures ParsedI32(Text.Decimal(n)) == InI32(n)
    ensures ParsedI32(['+'] + Text.Decimal(n)) == InI32(n) && ParsedI32(['-'] + Text.Decimal(n)) == InI32(0 - n)
  {
    hide ParsedI32, Text.Decimal, Text.DigitsValue;
    DigitsAreRead(Text.Decimal(n));
    Text.DecimalRoundTrips(n);
  }

  /** A text with anything but digits after its sign, or with no digit, is no number. */
  lemma NonNumbersAreRefused(s: string)
    ensures ParsedI32(s).Some? ==>
              var ds := if s != [] && (s[0] == '+' || s[0] == '-') then s[1..] else s;
              ds != [] && forall i | 0 <= i < |ds| :: '0' <= ds[i] <= '9'
  {
    var ds := if s != [] && (s[0] == '+' || s[0] == '-') then s[1..] else s;
    if ParsedI32(s).Some? {
      assert forall c | c in ds :: Text.IsDigit(c);
      forall i | 0 <= i < |ds| ensures '0' <= ds[i] <= '9' {
        assert ds[i] in ds;
      }
    }
  }

  predicate Clashes(out: seq<Port>, p: Port) {
    exists q | q in out :: EqIgnoreCase(q.name, p.name) || q.call == p.call
  }

  datatype Parse = Ports(ports: seq<Port>) | Aborted

  /** The file: the first port of every name and every call is kept. */
  function Parsed(lines: seq<string>): Parse {
    if lines == [] then Ports([])
    else
      match Parsed(lines[..|lines| - 1])
      case Aborted => Aborted
      case Ports(out) =>
        match ReadLine(lines[|lines| - 1])
        case Ignored => Ports(out)
        case Crash => Aborted
        case Found(p) => Ports(if Clashes(out, p) then out else out + [p])
  }

  /** Parsing aborts exactly if some line crashes; a crash is never skipped and never comes from elsewhere. */
  lemma {:induction false} ParsingAbortsIff(lines: seq<string>)
    ensures Parsed(lines).Aborted? <==> exists k | 0 <= k < |lines| :: ReadLine(lines[k]).Crash?
    decreases |lines|
  {
    hide ReadLine, Clashes;
    if lines != [] {
      var n := |lines| - 1;
      ParsingAbortsIff(lines[..n]);
      assert forall k | 0 <= k < n :: lines[..n][k] == lines[k];
    }
  }

  /** Six letters or digits, then a character outside ASCII. */
  predicate PanickingCall(call: string) {
    |call| >= 7 && (forall i | 0 <= i < 6 :: Callsign.IsAlnumChar(call[i])) && call[6] as int >= 128
  }

  lemma PanickingSurvivesStorage(token: string)
    ensures PanickingCall(StoredCall(token)) <==> PanickingCall(token)
  {
    var u := Uppercase(token);
    var d := DashZero(u, 0);
    assert forall i | 0 <= i < |u| :: Callsign.IsAlnumChar(u[i]) <==> Callsign.IsAlnumChar(token[i]);
    if PanickingCall(token) {
      assert forall i | 0 <= i < 6 :: Callsign.IsAlnumChar(u[i]) && u[i] != '-';
      assert u[6] == token[6];
      assert d >= 7;
    }
  }

  /**
   A line crashes the parser exactly if it is complete, its numbers are valid and
   its callsign token has six letters or digits and then a character outside
   ASCII.
   */
  lemma LineCrashesIff(raw: string)
    ensures var t := TrimStart(TrimReturns(raw));
            ReadLine(raw).Crash? <==>
              && t != [] && t[0] != '#' && Split(t).Fields?
              && OrElse(ParsedI32(Split(t).baud), -1) >= 0
              && OrElse(ParsedI32(Split(t).paclen), 0) > 0
              && OrElse(ParsedI32(Split(t).window), 0) > 0
              && PanickingCall(Split(t).call)
  {
    hide Split, TrimStart, TrimReturns, ParsedI32, Callsign.Encoded, Text.Utf8, StoredCall, PanickingCall;
    var t := TrimStart(TrimReturns(raw));
    if Split(t).Fields? {
      PanickingSurvivesStorage(Split(t).call);
      PanicsIff(StoredCall(Split(t).call));
    }
  }

  lemma PanicsIff(call: string)
    ensures Callsign.Encoded(Text.Utf8(call)).Panics? <==> PanickingCall(call)
  {
    hide Callsign.Encoded, Text.Utf8;
    Callsign.EncodePanicsIff(call);
  }

  /** The loop over the lines. */
  method ParseAxports(content: string) returns (r: Parse)
    ensures r == Parsed(Lines(content))
  {
    hide Split, TrimStart, TrimReturns, ParsedI32, Callsign.Encoded, Text.Utf8, StoredCall;
    var out: seq<Port> := [];
    var lines := Lines(content);
    for i := 0 to |lines|
      invariant Parsed(lines[..i]) == Ports(out)
    {
      assert lines[..i + 1][..i] == lines[..i];
      var trimmed := TrimStart(TrimReturns(lines[i]));
      if trimmed == [] || trimmed[0] == '#' {
        continue;
      }
      var f := Split(trimmed);
      if f.Missing? {
        continue;
      }
      var baud, paclen := OrElse(ParsedI32(f.baud), -1), OrElse(ParsedI32(f.paclen), 0);
      var window := OrElse(ParsedI32(f.window), 0);
      if baud < 0 || paclen <= 0 || window <= 0 {
        continue;
      }
      var call := StoredCall(f.call);
      var e := Callsign.EncodeEntry(Text.Utf8(call));
      if e.Panics? {
        assert ReadLine(lines[i]).Crash?;
        ParsingAbortsIff(lines);
        return Aborted;
      }
      if e.Rejected? {
        continue;
      }
      if exists q | q in out :: EqIgnoreCase(q.name, f.name) || q.call == call {
        continue;
      }
      out := out + [Port(f.name, call, baud, paclen, window, f.desc)];
    }
    assert lines[..|lines|] == lines;
    r := Ports(out);
  }

  ghost predicate WellFormed(ports: seq<Port>) {
    forall i | 0 <= i < |ports| ::
      && IsToken(ports[i].name) && ports[i].description != [] && NumbersOk(ports[i])
      && IsStored(ports[i].call) && Encodable(ports[i].call)
  }

  ghost predicate Distinct(ports: seq<Port>) {
    forall i, j | 0 <= j < i < |ports| ::
      !EqIgnoreCase(ports[j].name, ports[i].name) && ports[j].call != ports[i].call
  }

  /** Every table is well-formed, with no name (case ignored) and no call twice. */
  lemma {:induction false} ParsedIsDistinct(lines: seq<string>)
    requires Parsed(lines).Ports?
    ensures WellFormed(Parsed(lines).ports) && Distinct(Parsed(lines).ports)
    decreases |lines|
  {
    hide ReadLine, IsToken, NumbersOk, IsStored, Encodable, EqIgnoreCase;
    if lines != [] {
      ParsedIsDistinct(lines[..|lines| - 1]);
      var out := Parsed(lines[..|lines| - 1]).ports;
      if Parsed(lines).ports != out {
        var p := ReadLine(lines[|lines| - 1]).port;
        forall j | 0 <= j < |out| ensures !EqIgnoreCase(out[j].name, p.name) && out[j].call != p.call {
          assert out[j] in out;
        }
      }
    }
  }

  /** Every usable line is represented: a port of its name (case ignored) or of its call is in the table. */
  lemma NothingIsLost(lines: seq<string>, k: nat)
    requires Parsed(lines).Ports? && k < |lines| && ReadLine(lines[k]).Found?
    ensures var p := ReadLine(lines[k]).port;
            exists q | q in Parsed(lines).ports :: Uppercase(q.name) == Uppercase(p.name) || q.call == p.call
  {
    UsableLineClashes(lines, k);
    hide Parsed, ReadLine, Uppercase;
  }

  lemma {:induction false} UsableLineClashes(lines: seq<string>, k: nat)
    requires Parsed(lines).Ports? && k < |lines| && ReadLine(lines[k]).Found?
    ensures Clashes(Parsed(lines).ports, ReadLine(lines[k]).port)
    decreases |lines|
  {
    hide ReadLine, Clashes;
    var n := |lines| - 1;
    var out := Parsed(lines[..n]).ports;
    var p := ReadLine(lines[k]).port;
    if k < n {
      UsableLineClashes(lines[..n], k);
      if ReadLine(lines[n]).Found? {
        ClashRemains(out, ReadLine(lines[n]).port, p);
      }
    } else {
      ClashesWithItself(out, p);
    }
  }

  /**
   The table follows the file and earlier lines win: what the first `k` lines give is
   the front of it, and every port behind that front is that of a later line.
   */
  lemma {:induction false} EarlierLinesWin(lines: seq<string>, k: nat)
    requires Parsed(lines).Ports? && k <= |lines|
    ensures Parsed(lines[..k]).Ports? && Parsed(lines[..k]).ports <= Parsed(lines).ports
    ensures forall i | |Parsed(lines[..k]).ports| <= i < |Parsed(lines).ports| ::
              Found(Parsed(lines).ports[i]) in LinesRead(lines[k..])
    decreases |lines| - k
  {
    hide Parsed, ReadLine, Clashes, LinesRead;
    if k == |lines| {
      assert lines[..k] == lines;
    } else {
      EarlierLinesWin(lines, k + 1);
      ParsedStep(lines, k);
      LinesFrom(lines, k);
    }
  }

  lemma ParsedStep(lines: seq<string>, k: nat)
    requires k < |lines| && Parsed(lines[..k + 1]).Ports?
    ensures Parsed(lines[..k]).Ports?
    ensures var was, now := Parsed(lines[..k]).ports, Parsed(lines[..k + 1]).ports;
            now == was || (|now| == |was| + 1 && was <= now && ReadLine(lines[k]) == Found(now[|was|]))
  {
    hide ReadLine, Clashes;
    assert lines[..k + 1][..k] == lines[..k];
  }

  lemma LinesFrom(lines: seq<string>, k: nat)
    requires k < |lines|
    ensures LinesRead(lines[k..]) == [ReadLine(lines[k])] + LinesRead(lines[k + 1..])
  {
    hide ReadLine;
  }

  function LinesRead(lines: seq<string>): (r: seq<Line>)
    ensures |r| == |lines|
  {
    seq(|lines|, i requires 0 <= i < |lines| => ReadLine(lines[i]))
  }

  lemma ClashRemains(out: seq<Port>, q: Port, p: Port)
    requires Clashes(out, p)
    ensures Clashes(out + [q], p)
  {
    hide EqIgnoreCase;
    var r :| r in out && (EqIgnoreCase(r.name, p.name) || r.call == p.call);
    assert r in out + [q];
  }

  lemma ClashesWithItself(out: seq<Port>, p: Port)
    ensures Clashes(out + [p], p)
  {
    assert p in out + [p];
  }

  lemma SameIgnoringCase(s: string)
    ensures EqIgnoreCase(s, s)
  {
  }

  // ---- Lookup ----------------------------------------------------------

  function NormalCall(s: string): string {
    var u := Uppercase(s);
    var d := Find(u, '-', '-', 0);
    if d < |u| && u[d + 1..] == "0" then u[..d] else u
  }

  predicate SameCall(a: string, b: string) {
    NormalCall(a) == NormalCall(b)
  }

  predicate Matches(p: Port, query: string) {
    EqIgnoreCase(p.name, query) || SameCall(p.call, query)
  }

  /** The first match, or the length of the table. */
  function FindIndex(ports: seq<Port>, query: string, i: nat): (r: nat)
    requires i <= |ports|
    ensures i <= r <= |ports|
    ensures forall j | i <= j < r :: !Matches(ports[j], query)
    ensures r < |ports| ==> Matches(ports[r], query)
    decreases |ports| - i
  {
    if i < |ports| && !Matches(ports[i], query) then FindIndex(ports, query, i + 1) else i
  }

  const NUL: char := '\0'

  /** The C string of a name: `CString::new` fails on a NUL and leaves the empty string. */
  function CName(name: string): string {
    if NUL in name then "" else name
  }

  /** `ax25_config_get_next`; `None` is NULL, both ways. */
  function Next(ports: seq<Port>, name: Option<string>): Option<string> {
    if ports == [] then None
    else
      match name
      case None => Some(CName(ports[0].name))
      case Some(q) =>
        var i := FindIndex(ports, q, 0);
        if i + 1 < |ports| then Some(CName(ports[i + 1].name)) else None
  }

  /** A name that no port answers to has no successor; one that a port answers to has the port after the first such. */
  lemma NextIs(ports: seq<Port>, name: string, i: nat)
    requires i < |ports| ==> Matches(ports[i], name)
    requires i <= |ports| && forall j | 0 <= j < i :: !Matches(ports[j], name)
    ensures Next(ports, Some(name)) == if i + 1 < |ports| then Some(CName(ports[i + 1].name)) else None
  {
    hide Matches;
  }

  /** The table behind the C functions. */
  class PortTable {
    var ports: seq<Port>

    constructor ()
      ensures ports == []
    {
      ports := [];
    }

    /** Loads once: a table that holds ports is never replaced. */
    method Load(content: Option<string>) returns (count: Option<nat>)
      modifies this
      ensures old(ports) != [] ==> ports == old(ports)
      ensures old(ports) == [] && content.None? ==> ports == []
      ensures old(ports) == [] && content.Some? && count.Some? ==> Parsed(Lines(content.value)) == Ports(ports)
      ensures count == if old(ports) == [] && content.Some? && Parsed(Lines(content.value)).Aborted? then None
                       else Some(|ports|)
      ensures count.None? ==> ports == old(ports)
    {
      hide Parsed, Lines;
      if ports != [] || content.None? {
        return Some(|ports|);
      }
      var p := ParseAxports(content.value);
      match p {
        case Aborted => count := None;
        case Ports(ps) =>
          for i := 0 to |ps|
            invariant ports == ps[..i]
          {
            ports := ports + [ps[i]];
          }
          count := Some(|ports|);
      }
    }

    /** The search loop of `find_index` under `get_next`. */
    method GetNext(name: Option<string>) returns (r: Option<string>)
      ensures r == Next(ports, name)
    {
      if ports == [] {
        return None;
      }
      if name.None? {
        return Some(CName(ports[0].name));
      }
      var i := 0;
      while i < |ports| && !Matches(ports[i], name.value)
        invariant i <= |ports| && FindIndex(ports, name.value, i) == FindIndex(ports, name.value, 0)
      {
        i := i + 1;
      }
      r := if i + 1 < |ports| then Some(CName(ports[i + 1].name)) else None;
    }
  }

  // ---- The walk --------------------------------------------------------

  /** What the `n`-th call returns when each result is the next argument, starting with NULL. */
  function Visit(ports: seq<Port>, n: nat): Option<string> {
    if n == 0 then Next(ports, None)
    else
      match Visit(ports, n - 1)
      case None => None
      case Some(name) => Next(ports, Some(name))
  }

  /** The walk visits every port once, in order, and ends. */
  ghost predicate Walks(ports: seq<Port>) {
    (forall n | 0 <= n < |ports| :: Visit(ports, n) == Some(ports[n].name)) && Visit(ports, |ports|) == None
  }

  ghost predicate NoNul(ports: seq<Port>) {
    forall i | 0 <= i < |ports| :: NUL !in ports[i].name
  }

  /** No name is the call of an earlier port. */
  ghost predicate NoShadow(ports: seq<Port>) {
    forall i, j | 0 <= j < i < |ports| :: !SameCall(ports[j].call, ports[i].name)
  }

  /** A name is found at its own port, or at the first earlier port whose call it is. */
  lemma FoundAt(ports: seq<Port>, i: nat)
    requires Distinct(ports) && i < |ports|
    ensures FindIndex(ports, ports[i].name, 0) <= i
    ensures FindIndex(ports, ports[i].name, 0) == i <==>
            forall j | 0 <= j < i :: !SameCall(ports[j].call, ports[i].name)
  {
    hide EqIgnoreCase, SameCall;
    SameIgnoringCase(ports[i].name);
    assert Matches(ports[i], ports[i].name);
    forall j | 0 <= j < i ensures Matches(ports[j], ports[i].name) <==> SameCall(ports[j].call, ports[i].name) {
    }
  }

  lemma {:induction false} VisitsInOrder(ports: seq<Port>, n: nat)
    requires Distinct(ports) && NoNul(ports) && NoShadow(ports) && n < |ports|
    ensures Visit(ports, n) == Some(ports[n].name)
    decreases n
  {
    hide SameCall, FindIndex, Distinct, Next;
    if n > 0 {
      VisitsInOrder(ports, n - 1);
      OneMoreVisit(ports, n);
      hide Visit, NoNul;
      FoundAt(ports, n - 1);
      NextAfter(ports, ports[n - 1].name, n - 1);
    } else {
      FirstVisit(ports);
    }
  }

  /**
     The port walk, for every table: it visits every port once in file order and
     then ends if and only if no name holds a NUL and no name is the call of an
     earlier port.
   */
  lemma WalkIff(ports: seq<Port>)
    requires Distinct(ports) && forall i | 0 <= i < |ports| :: ports[i].name != []
    ensures Walks(ports) <==> NoNul(ports) && NoShadow(ports)
  {
    hide Walks, NoNul, NoShadow, Distinct;
    if NoNul(ports) && NoShadow(ports) {
      CleanTableWalks(ports);
    }
    if Walks(ports) {
      WalkedTableIsClean(ports);
    }
  }

  lemma CleanTableWalks(ports: seq<Port>)
    requires Distinct(ports) && NoNul(ports) && NoShadow(ports)
    ensures Walks(ports)
  {
    hide SameCall, FindIndex, Distinct, Visit;
    forall n | 0 <= n < |ports| ensures Visit(ports, n) == Some(ports[n].name) {
      VisitsInOrder(ports, n);
    }
    if ports == [] {
      NothingToWalk(ports);
    } else {
      FoundAt(ports, |ports| - 1);
      OneMoreVisit(ports, |ports|);
    }
  }

  lemma NothingToWalk(ports: seq<Port>)
    requires ports == []
    ensures Visit(ports, 0) == None
  {
  }

  lemma OneMoreVisit(ports: seq<Port>, n: nat)
    requires n > 0 && Visit(ports, n - 1).Some?
    ensures Visit(ports, n) == Next(ports, Visit(ports, n - 1))
  {
    hide Next;
  }

  lemma WalkedTableIsClean(ports: seq<Port>)
    requires Walks(ports) && Distinct(ports) && forall i | 0 <= i < |ports| :: ports[i].name != []
    ensures NoNul(ports) && NoShadow(ports)
  {
    hide SameCall, FindIndex, Distinct, Visit;
    forall i | 0 <= i < |ports| ensures NUL !in ports[i].name {
      VisitedName(ports, i);
    }
    forall i, j | 0 <= j < i < |ports| ensures !SameCall(ports[j].call, ports[i].name) {
      NextIsOwn(ports, i);
      FoundAt(ports, i);
    }
  }

  lemma VisitedName(ports: seq<Port>, n: nat)
    requires n < |ports| && Visit(ports, n) == Some(ports[n].name) && ports[n].name != []
    requires n > 0 ==> Visit(ports, n - 1) == Some(ports[n - 1].name)
    requires Distinct(ports)
    ensures NUL !in ports[n].name
  {
    hide Matches;
    if n > 0 {
      FoundAt(ports, n - 1);
    }
  }

  lemma NextIsOwn(ports: seq<Port>, i: nat)
    requires Distinct(ports) && i < |ports| && NoNul(ports)
    requires Visit(ports, i) == Some(ports[i].name)
    requires Visit(ports, i + 1) == if i + 1 < |ports| then Some(ports[i + 1].name) else None
    ensures FindIndex(ports, ports[i].name, 0) == i
  {
    hide FindIndex, Next, Distinct, NoNul;
    var f := FindIndex(ports, ports[i].name, 0);
    FoundAt(ports, i);
    NextAfter(ports, ports[i].name, f);
    if f < i {
      NamesDiffer(ports, i + 1, f + 1);
    }
  }

  lemma NamesDiffer(ports: seq<Port>, i: nat, j: nat)
    requires Distinct(ports) && j < i && j < |ports|
    ensures i < |ports| ==> ports[j].name != ports[i].name
  {
  }

  lemma NextAfter(ports: seq<Port>, q: string, f: nat)
    requires NoNul(ports) && f == FindIndex(ports, q, 0) < |ports|
    ensures Next(ports, Some(q)) == if f + 1 < |ports| then Some(ports[f + 1].name) else None
  {
    hide FindIndex;
  }

  /** Otherwise a NUL-free table is walked for ever. */
  lemma {:induction false} ShadowedWalkNeverEnds(ports: seq<Port>, n: nat)
    requires Distinct(ports) && NoNul(ports) && !NoShadow(ports)
    ensures Visit(ports, n).Some?
  {
    var i :| 0 <= i < |ports| && exists j :: 0 <= j < i && SameCall(ports[j].call, ports[i].name);
    var at := StaysBelow(ports, i, n);
  }

  lemma {:induction false} StaysBelow(ports: seq<Port>, i: nat, n: nat) returns (at: nat)
    requires Distinct(ports) && NoNul(ports) && i < |ports|
    requires exists j :: 0 <= j < i && SameCall(ports[j].call, ports[i].name)
    ensures at <= i && Visit(ports, n) == Some(ports[at].name)
    decreases n
  {
    hide SameCall, FindIndex, Distinct, Next, NoNul;
    at := 0;
    if n > 0 {
      var before := StaysBelow(ports, i, n - 1);
      OneMoreVisit(ports, n);
      hide Visit;
      FoundAt(ports, before);
      at := FindIndex(ports, ports[before].name, 0) + 1;
      NextAfter(ports, ports[before].name, at - 1);
    } else {
      FirstVisit(ports);
    }
  }

  lemma FirstVisit(ports: seq<Port>)
    requires ports != [] && NoNul(ports)
    ensures Visit(ports, 0) == Some(ports[0].name)
  {
  }

  const ONE_SPACE_EACH: seq<string> := [[' '], [' '], [' '], [' '], [' ']]
  const HF_LINE := "hf M0LTE 0 1 1 x"
  const M0LTE_LINE := "m0lte G0ABC 0 1 1 y"

  /** Two lines are enough: a port called "hf" with the call M0LTE, then a port named "m0lte". */
  lemma AWalkCanRunForEver()
    ensures var p := Parsed(Lines(HF_LINE + "\n" + M0LTE_LINE));
            && p == Ports([Port("hf", "M0LTE", 0, 1, 1, "x"), Port("m0lte", "G0ABC", 0, 1, 1, "y")])
            && !Walks(p.ports) && forall n: nat :: Visit(p.ports, n).Some?
  {
    var ports := [Port("hf", "M0LTE", 0, 1, 1, "x"), Port("m0lte", "G0ABC", 0, 1, 1, "y")];
    TwoLines(ports);
    TwoLinesParse(ports);
    hide Visit, Distinct, NoNul, SameCall, Parsed, Lines;
    forall n: nat ensures Visit(ports, n).Some? {
      ShadowedWalkNeverEnds(ports, n);
    }
    assert Visit(ports, |ports|).Some?;
  }

  lemma TwoLines(ports: seq<Port>)
    requires ports == [Port("hf", "M0LTE", 0, 1, 1, "x"), Port("m0lte", "G0ABC", 0, 1, 1, "y")]
    ensures Distinct(ports) && NoNul(ports) && SameCall(ports[0].call, ports[1].name)
  {
    hide SameCall;
    assert |Uppercase("hf")| != |Uppercase("m0lte")|;
    assert Uppercase("m0lte") == "M0LTE";
    SameStoredCall("M0LTE", "m0lte");
    assert "M0LTE"[0] != "G0ABC"[0];
  }

  lemma LinesOfTwo(a: string, b: string)
    requires '\n' !in a && '\n' !in b && b != []
    ensures Lines(a + "\n" + b) == [a, b]
  {
    LinesAre(a, b);
    LinesAre(b, []);
  }

  lemma OneDigit(c: char)
    requires Text.IsDigit(c)
    ensures ParsedI32([c]) == Some(c as int - '0' as int)
  {
    assert forall d | d in [c] :: d == c;
    assert [c][..0] == [];
    assert Text.DigitsValue([c]) == Text.DigitsValue([]) * 10 + (c as int - '0' as int);
  }

  /** A callsign in plain ASCII capitals and digits, without an SSID, is stored as it is and encodes. */
  lemma PlainCall(call: string)
    requires |call| <= 6 && forall i | 0 <= i < |call| :: 'A' <= call[i] <= 'Z' || '0' <= call[i] <= '9'
    ensures StoredCall(call) == call && Encodable(call)
  {
    assert Uppercase(call) == call;
    assert DashZero(call, 0) == |call|;
    var b: seq<byte> := seq(|call|, i requires 0 <= i < |call| => call[i] as int);
    AsciiBytes(call, b);
    Callsign.EncodedText(b, 0);
    assert b + Callsign.SsidText(0) == b;
  }

  lemma {:induction false} AsciiBytes(s: string, b: seq<byte>)
    requires |b| == |s| && forall i | 0 <= i < |s| :: s[i] as int < 128 && b[i] == s[i] as int
    ensures Text.Utf8(s) == b
    decreases |s|
  {
    if s != [] {
      AsciiBytes(s[1..], b[1..]);
      assert b == [b[0]] + b[1..];
    }
  }

  lemma PlainLine(name: string, call: string, desc: string)
    ensures LineOf(Fields(name, call, "0", "1", "1", desc), ONE_SPACE_EACH) ==
            name + " " + call + " 0 1 1 " + desc
  {
    var tail := ['0'] + ([' '] + (['1'] + ([' '] + (['1'] + ([' '] + desc)))));
    assert [' '] + tail == " 0 1 1 " + desc;
    assert name + ([' '] + (call + ([' '] + tail))) == name + " " + call + ([' '] + tail);
  }

  lemma HfFields()
    ensures IsLine(Fields("hf", "M0LTE", "0", "1", "1", "x"), ONE_SPACE_EACH) && "hf"[0] != '#'
  {
    assert IsGap([' ']);
  }

  lemma HfText()
    ensures LineOf(Fields("hf", "M0LTE", "0", "1", "1", "x"), ONE_SPACE_EACH) == HF_LINE && '\n' !in HF_LINE
  {
    PlainLine("hf", "M0LTE", "x");
    hide LineOf;
    assert HF_LINE == "hf" + " " + "M0LTE" + " 0 1 1 " + "x";
    HfHasNoFeed();
  }

  lemma HfHasNoFeed()
    ensures '\n' !in HF_LINE
  {
  }

  lemma HfLine()
    ensures ReadLine(HF_LINE) == Found(Port("hf", "M0LTE", 0, 1, 1, "x"))
  {
    hide LineOf, ReadLine, StoredCall, Encodable, ParsedI32, IsLine, PanickingCall;
    var f := Fields("hf", "M0LTE", "0", "1", "1", "x");
    HfFields();
    HfText();
    PlainCall("M0LTE");
    OneDigit('0');
    OneDigit('1');
    assert [] + HF_LINE + [] == HF_LINE;
    WrittenLineIsRead(HF_LINE, [], f, ONE_SPACE_EACH, []);
  }

  lemma M0lteFields()
    ensures IsLine(Fields("m0lte", "G0ABC", "0", "1", "1", "y"), ONE_SPACE_EACH) && "m0lte"[0] != '#'
  {
    assert IsGap([' ']);
  }

  lemma M0lteText()
    ensures LineOf(Fields("m0lte", "G0ABC", "0", "1", "1", "y"), ONE_SPACE_EACH) == M0LTE_LINE && '\n' !in M0LTE_LINE
  {
    PlainLine("m0lte", "G0ABC", "y");
    hide LineOf;
    assert M0LTE_LINE == "m0lte" + " " + "G0ABC" + " 0 1 1 " + "y";
    M0lteHasNoFeed();
  }

  lemma M0lteHasNoFeed()
    ensures '\n' !in M0LTE_LINE
  {
  }

  lemma M0lteLine()
    ensures ReadLine(M0LTE_LINE) == Found(Port("m0lte", "G0ABC", 0, 1, 1, "y"))
  {
    hide LineOf, ReadLine, StoredCall, Encodable, ParsedI32, IsLine, PanickingCall;
    var f := Fields("m0lte", "G0ABC", "0", "1", "1", "y");
    M0lteFields();
    M0lteText();
    PlainCall("G0ABC");
    OneDigit('0');
    OneDigit('1');
    assert [] + M0LTE_LINE + [] == M0LTE_LINE;
    WrittenLineIsRead(M0LTE_LINE, [], f, ONE_SPACE_EACH, []);
  }

  lemma TwoLinesParse(ports: seq<Port>)
    requires ports == [Port("hf", "M0LTE", 0, 1, 1, "x"), Port("m0lte", "G0ABC", 0, 1, 1, "y")]
    requires Distinct(ports)
    ensures Parsed(Lines(HF_LINE + "\n" + M0LTE_LINE)) == Ports(ports)
  {
    hide ReadLine, Lines, EqIgnoreCase, Parsed, LineOf;
    HfLine();
    M0lteLine();
    HfText();
    M0lteText();
    LinesOfTwo(HF_LINE, M0LTE_LINE);
    assert ports[0].call != ports[1].call && !EqIgnoreCase(ports[0].name, ports[1].name);
    TwoFound(HF_LINE, M0LTE_LINE, ports[0], ports[1]);
  }

  lemma TwoFound(a: string, b: string, p: Port, q: Port)
    requires ReadLine(a) == Found(p) && ReadLine(b) == Found(q)
    requires !EqIgnoreCase(p.name, q.name) && p.call != q.call
    ensures Parsed([a, b]) == Ports([p, q])
  {
    hide ReadLine, EqIgnoreCase;
    assert [a, b][..1] == [a] && [a][..0] == [];
    assert Parsed([a]) == Ports([p]);
  }

  /** The walk over the table of any axports text. */
  lemma PortWalk(content: string, n: nat)
    requires Parsed(Lines(content)).Ports?
    ensures var ports := Parsed(Lines(content)).ports;
            && (Walks(ports) <==> NoNul(ports) && NoShadow(ports))
            && (NoNul(ports) && !NoShadow(ports) ==> Visit(ports, n).Some?)
  {
    var ports := Parsed(Lines(content)).ports;
    ParsedIsDistinct(Lines(content));
    assert forall i | 0 <= i < |ports| :: IsToken(ports[i].name);
    hide Distinct, Walks, NoNul, NoShadow, Visit;
    WalkIff(ports);
    if NoNul(ports) && !NoShadow(ports) {
      ShadowedWalkNeverEnds(ports, n);
    }
  }

  /** When a stored call and a name are the same call: equal but for case, or for an SSID "-0" in the name. */
  lemma SameStoredCall(call: string, name: string)
    requires IsStored(call)
    ensures SameCall(call, name) <==>
            Uppercase(name) == call || ('-' !in call && Uppercase(name) == call + "-0")
  {
    var u := Uppercase(name);
    var d := Find(u, '-', '-', 0);
    StoredIsNormal(call);
    if '-' !in call && u == call + "-0" {
      assert u[|call|] == '-' && forall j | 0 <= j < |call| :: u[j] == call[j];
      assert u[|call| + 1..] == "0";
      assert d == |call|;
    }
    if d < |u| && u[d + 1..] == "0" {
      assert u == u[..d] + "-0";
      assert u != call by {
        assert u[d] == '-' && u[d + 1] == u[d + 1..][0] == '0';
      }
    }
  }

  lemma StoredIsNormal(call: string)
    requires IsStored(call)
    ensures NormalCall(call) == call
  {
    var u := Uppercase(call);
    assert u == call;
    var d := Find(u, '-', '-', 0);
    if d + 1 < |u| {
      assert u[d + 1] == u[d + 1..][0];
    }
  }
}
