/**
 The 7-byte shifted AX.25 callsign encoding (section 3.12 of AX.25 v2.2): the
 libax25 codec (crates/libax25/src/addr.rs) and the interposer's own copy of it
 (crates/ax25-interpose/src/addr.rs). Text is the bytes of a `&str`.
 */
module Callsign {
  import opened Bytes
  import Text

  const DASH: byte := 45
  const PLUS: byte := 43
  const SPACE: byte := 32
  /** A space, shifted. */
  const BLANK: byte := 64

  predicate IsUpper(c: byte) { 65 <= c <= 90 }

  predicate IsLower(c: byte) { 97 <= c <= 122 }

  predicate IsDigit(c: byte) { 48 <= c <= 57 }

  predicate IsAlnum(c: byte) { IsUpper(c) || IsLower(c) || IsDigit(c) }

  function Upper(c: byte): byte { if IsLower(c) then c - 32 else c }

  /** `c << 1` on a `u8`. */
  function Shl(c: byte): byte { c * 2 % 256 }

  // ---- Scanning an SSID ------------------------------------------------

  /** The two's complement value of the low 32 bits of `v`. */
  function ToI32(v: int): int {
    var m := v % 0x1_0000_0000;
    if m < 0x8000_0000 then m else m - 0x1_0000_0000
  }

  function ToI64(v: int): int {
    var m := v % 0x1_0000_0000_0000_0000;
    if m < 0x8000_0000_0000_0000 then m else m - 0x1_0000_0000_0000_0000
  }

  predicate IsBlank(c: byte) { c == SPACE || c == 9 }

  function BlanksEnd(b: seq<byte>, i: nat): (r: nat)
    requires i <= |b|
    ensures i <= r <= |b|
    decreases |b| - i
  {
    if i < |b| && IsBlank(b[i]) then BlanksEnd(b, i + 1) else i
  }

  function DigitsEnd(b: seq<byte>, i: nat): (r: nat)
    requires i <= |b|
    ensures i <= r <= |b|
    decreases |b| - i
  {
    if i < |b| && IsDigit(b[i]) then DigitsEnd(b, i + 1) else i
  }

  predicate AllDigits(ds: seq<byte>) { forall d | d in ds :: IsDigit(d) }

  /** The number `ds` spells, however long. */
  function Value(ds: seq<byte>): int {
    if ds == [] then 0 else Value(ds[..|ds| - 1]) * 10 + (ds[|ds| - 1] as int - 48)
  }

  predicate Signed(b: seq<byte>, i: nat) {
    i < |b| && (b[i] == PLUS || b[i] == DASH)
  }

  /** What `%d` reads at the start of `b`, kept in 32 bits. */
  function Scanned(b: seq<byte>): Option<int> {
    var i := BlanksEnd(b, 0);
    var start := if Signed(b, i) then i + 1 else i;
    var end := DigitsEnd(b, start);
    if end == start then None
    else
      var v := ToI32(Value(b[start..end]));
      Some(if i < |b| && b[i] == DASH then ToI32(-v) else v)
  }

  lemma Shift32(x: int, k: int)
    ensures (x + k * 0x1_0000_0000) % 0x1_0000_0000 == x % 0x1_0000_0000
  {
  }

  lemma Shift64(x: int, k: int)
    ensures ToI64(x + k * 0x1_0000_0000_0000_0000) == ToI64(x)
  {
  }

  /** Wrapping changes a number by a multiple of 2^64. */
  lemma Wrapped(x: int) returns (k: int)
    ensures ToI64(x) == x + k * 0x1_0000_0000_0000_0000
  {
    k := -(x / 0x1_0000_0000_0000_0000);
    if x % 0x1_0000_0000_0000_0000 >= 0x8000_0000_0000_0000 {
      k := k - 1;
    }
  }

  /** One more digit into a wrapping 64-bit accumulator. */
  lemma WrapStep(x: int, d: int)
    ensures ToI64(ToI64(x) * 10 + d) == ToI64(x * 10 + d)
  {
    var k := Wrapped(x);
    hide ToI64;
    Shift64(x * 10 + d, 10 * k);
  }

  lemma LowHalfOfWrapped(x: int)
    ensures ToI32(ToI64(x)) == ToI32(x)
  {
    var k := Wrapped(x);
    hide ToI64;
    Shift32(x, k * 0x1_0000_0000);
  }

  lemma WrappedZero()
    ensures ToI64(Value([])) == 0
  {
  }

  lemma OneMoreDigit(b: seq<byte>, start: nat, i: nat)
    requires start <= i < |b|
    ensures ToI64(Value(b[start..i + 1])) == ToI64(ToI64(Value(b[start..i])) * 10 + (b[i] as int - 48))
  {
    hide ToI64;
    WrapStep(Value(b[start..i]), b[i] as int - 48);
    assert b[start..i + 1][..i - start] == b[start..i];
  }

  /** The scan loop: its wrapping accumulator still ends in the low 32 bits of the number spelled. */
  method ScanInt(b: seq<byte>) returns (r: Option<int>)
    ensures r == Scanned(b)
  {
    hide ToI32, ToI64, Value;
    var i := 0;
    while i < |b| && IsBlank(b[i])
      invariant i <= |b| && BlanksEnd(b, i) == BlanksEnd(b, 0)
    {
      i := i + 1;
    }
    var neg := false;
    if i < |b| && (b[i] == PLUS || b[i] == DASH) {
      neg := b[i] == DASH;
      i := i + 1;
    }
    var start := i;
    var val := 0;
    WrappedZero();
    assert b[start..start] == [];
    while i < |b| && IsDigit(b[i])
      invariant start <= i <= |b| && DigitsEnd(b, i) == DigitsEnd(b, start)
      invariant val == ToI64(Value(b[start..i]))
    {
      OneMoreDigit(b, start, i);
      val := ToI64(val * 10 + (b[i] as int - 48));
      i := i + 1;
    }
    if i == start {
      return None;
    }
    LowHalfOfWrapped(Value(b[start..i]));
    r := Some(if neg then ToI32(-ToI32(val)) else ToI32(val));
  }

  // ---- Encoding --------------------------------------------------------

  datatype Encoding = Entry(address: seq<byte>) | Rejected | Panics

  /** Where the callsign part of `name` ends: at most six letters and digits. */
  function BaseEnd(name: seq<byte>, i: nat): (r: nat)
    requires i <= |name| && i <= 6
    ensures i <= r <= |name| && r <= 6
    decreases 6 - i
  {
    if i < |name| && i < 6 && IsAlnum(name[i]) then BaseEnd(name, i + 1) else i
  }

  /** Six shifted characters, space-padded, and the SSID byte. */
  function Address(base: seq<byte>, ssid: nat): (a: seq<byte>)
    ensures |a| == 7
  {
    seq(7, i requires 0 <= i < 7 =>
      if i == 6 then ssid % 16 * 2 else if i < |base| then Shl(Upper(base[i])) else BLANK)
  }

  lemma PackedIs(buf: seq<byte>, base: seq<byte>, ssid: nat)
    requires |buf| == 7 && |base| <= 6 && ssid <= 15
    requires forall j | 0 <= j < |base| :: buf[j] == Shl(Upper(base[j]))
    requires forall j | |base| <= j < 6 :: buf[j] == BLANK
    requires buf[6] == (ssid + 48) * 2 % 32
    ensures buf == Address(base, ssid)
  {
  }

  function Encoded(name: seq<byte>): Encoding {
    var k := BaseEnd(name, 0);
    if k == |name| then Entry(Address(name[..k], 0))
    else if k < 6 && name[k] != DASH then Rejected
    else if k + 1 < |name| && Text.IsTail(name[k + 1]) then Panics
    else
      match Scanned(name[k + 1..])
      case Some(v) => if 0 <= v <= 15 then Entry(Address(name[..k], v)) else Rejected
      case None => Rejected
  }

  /** The loops over the seven-byte buffer; the one character at the cut is skipped unread. */
  method EncodeEntry(name: seq<byte>) returns (r: Encoding)
    ensures r == Encoded(name)
  {
    hide Address, Scanned;
    var buf := new byte[7](_ => 0);
    var ct, idx := 0, 0;
    while ct < 6
      invariant ct == idx <= 6 && idx <= |name| && BaseEnd(name, idx) == BaseEnd(name, 0)
      invariant forall j | 0 <= j < ct :: buf[j] == Shl(Upper(name[j]))
    {
      if idx >= |name| {
        break;
      }
      var c := Upper(name[idx]);
      if c == DASH {
        break;
      }
      if !IsAlnum(c) {
        return Rejected;
      }
      buf[ct] := Shl(c);
      idx := idx + 1;
      ct := ct + 1;
    }
    while ct < 6
      invariant idx <= ct <= 6
      invariant forall j | 0 <= j < idx :: buf[j] == Shl(Upper(name[j]))
      invariant forall j | idx <= j < ct :: buf[j] == BLANK
    {
      buf[ct] := Shl(SPACE);
      ct := ct + 1;
    }
    ghost var k := idx;
    var ssid := 0;
    if idx < |name| {
      idx := idx + 1;
      if idx < |name| && Text.IsTail(name[idx]) {
        return Panics;
      }
      var v := ScanInt(name[idx..]);
      match v {
        case Some(n) =>
          if 0 <= n <= 15 {
            ssid := n;
          } else {
            return Rejected;
          }
        case None => return Rejected;
      }
    }
    buf[6] := (ssid + 48) * 2 % 32;
    PackedIs(buf[..], name[..k], ssid);
    r := Entry(buf[..]);
  }

  // ---- Decoding --------------------------------------------------------

  /** The first `n` characters, spaces dropped. */
  function Letters(a: seq<byte>, n: nat): seq<byte>
    requires n <= |a|
  {
    if n == 0 then []
    else Letters(a, n - 1) + (if a[n - 1] / 2 == SPACE then [] else [a[n - 1] / 2])
  }

  function Ssid(a: seq<byte>): (s: nat)
    requires |a| == 7
    ensures s <= 15
  {
    a[6] / 2 % 16
  }

  /** A number below 16 in decimal. */
  function Number(s: nat): seq<byte>
    requires s <= 15
  {
    if s < 10 then [48 + s] else [49, 38 + s]
  }

  function SsidText(s: nat): seq<byte>
    requires s <= 15
  {
    if s == 0 then [] else [DASH] + Number(s)
  }

  function Decoded(a: seq<byte>): seq<byte>
    requires |a| == 7
  {
    Letters(a, 6) + SsidText(Ssid(a))
  }

  /** Both decoders, libax25's and the interposer's, are this loop. */
  method DecodeEntry(call: array<byte>) returns (s: seq<byte>)
    requires call.Length == 7
    ensures s == Decoded(call[..])
  {
    s := [];
    for n := 0 to 6
      invariant s == Letters(call[..], n)
    {
      var c := call[n] / 2 % 128;
      if c != SPACE {
        s := s + [c];
      }
    }
    if call[6] / 2 % 16 != 0 {
      var ssid := call[6] / 2 % 16;
      s := s + [DASH];
      s := s + Number(ssid);
      assert s == Letters(call[..], 6) + ([DASH] + Number(ssid));
    }
  }

  // ---- Validity and comparison -----------------------------------------

  predicate IsCallChar(c: byte) { IsUpper(c) || IsDigit(c) || c == SPACE }

  predicate Valid(a: seq<byte>)
    requires |a| == 7
  {
    forall i | 0 <= i < 6 :: IsCallChar(a[i] / 2)
  }

  method ValidateEntry(call: array<byte>) returns (ok: bool)
    requires call.Length == 7
    ensures ok <==> Valid(call[..])
    ensures ok <==> forall i | 0 <= i < 6 ::
                      call[i] / 2 == 32 || 48 <= call[i] / 2 <= 57 || 65 <= call[i] / 2 <= 90
  {
    for i := 0 to 6
      invariant forall j | 0 <= j < i :: IsCallChar(call[j] / 2)
    {
      var c := call[i] / 2 % 128;
      if !IsCallChar(c) {
        return false;
      }
    }
    ok := true;
  }

  predicate SameLetters(a: seq<byte>, b: seq<byte>)
    requires |a| == |b| == 7
  {
    forall i | 0 <= i < 6 :: a[i] / 2 == b[i] / 2
  }

  function Compared(a: seq<byte>, b: seq<byte>): int
    requires |a| == |b| == 7
  {
    if !SameLetters(a, b) then 1 else if Ssid(a) != Ssid(b) then 2 else 0
  }

  method CmpEntry(a: array<byte>, b: array<byte>) returns (r: int)
    requires a.Length == b.Length == 7
    ensures r == Compared(a[..], b[..])
  {
    for i := 0 to 6
      invariant forall j | 0 <= j < i :: a[j] / 2 == b[j] / 2
    {
      if a[i] / 2 * 2 != b[i] / 2 * 2 {
        assert a[..][i] / 2 != b[..][i] / 2;
        return 1;
      }
    }
    assert SameLetters(a[..], b[..]);
    if a[6] / 2 % 16 * 2 != b[6] / 2 % 16 * 2 {
      return 2;
    }
    r := 0;
  }

  // ---- The interposer's encoder ----------------------------------------

  function FirstDash(name: seq<byte>, i: nat): (r: nat)
    requires i <= |name|
    ensures i <= r <= |name|
    decreases |name| - i
  {
    if i < |name| && name[i] != DASH then FirstDash(name, i + 1) else i
  }

  /** `str::parse::<u8>`. */
  function ParsedU8(s: seq<byte>): Option<byte> {
    var ds := if s != [] && s[0] == PLUS then s[1..] else s;
    if ds != [] && AllDigits(ds) && 0 <= Value(ds) < 256 then Some(Value(ds)) else None
  }

  function InterposerSsid(s: seq<byte>): nat {
    match ParsedU8(s)
    case Some(v) => v % 16
    case None => 0
  }

  function InterposerEncoded(name: seq<byte>): (a: seq<byte>)
    ensures |a| == 7
  {
    var d := FirstDash(name, 0);
    Address(name[..d], if d < |name| then InterposerSsid(name[d + 1..]) else 0)
  }

  method InterposerEncode(name: seq<byte>) returns (out: seq<byte>)
    ensures out == InterposerEncoded(name)
  {
    var buf := new byte[7](_ => 0);
    var d := FirstDash(name, 0);
    var base, ssid := name[..d], if d < |name| then InterposerSsid(name[d + 1..]) else 0;
    for i := 0 to 6
      invariant forall j | 0 <= j < i :: buf[j] == Address(base, ssid)[j]
    {
      var c := if i < |base| then Upper(base[i]) else SPACE;
      buf[i] := Shl(c);
    }
    buf[6] := ssid * 2 % 32;
    assert ssid < 16;
    out := buf[..];
    assert out == Address(base, ssid);
  }

  // ---- Canonical addresses ---------------------------------------------

  /** Upper-case letters and digits, spaces only at the end, spare bits clear. */
  predicate Canonical(a: seq<byte>) {
    && |a| == 7
    && Valid(a)
    && (forall i, j | 0 <= i < j < 6 :: a[i] == BLANK ==> a[j] == BLANK)
    && (forall i | 0 <= i < 7 :: a[i] % 2 == 0)
    && a[6] < 32
  }

  predicate IsBase(b: seq<byte>) {
    |b| <= 6 && forall i | 0 <= i < |b| :: IsAlnum(b[i])
  }

  predicate IsUpperBase(b: seq<byte>) {
    |b| <= 6 && forall i | 0 <= i < |b| :: IsUpper(b[i]) || IsDigit(b[i])
  }

  lemma {:induction false} BaseEndsAt(base: seq<byte>, rest: seq<byte>, i: nat)
    requires IsBase(base) && i <= |base|
    requires |base| == 6 || rest == [] || !IsAlnum(rest[0])
    ensures BaseEnd(base + rest, i) == |base|
    decreases |base| - i
  {
    if i < |base| {
      BaseEndsAt(base, rest, i + 1);
    }
  }

  lemma {:induction false} BaseIsAlnum(name: seq<byte>, i: nat)
    requires i <= |name| && i <= 6 && forall j | 0 <= j < i :: IsAlnum(name[j])
    ensures IsBase(name[..BaseEnd(name, i)])
    decreases 6 - i
  {
    if i < |name| && i < 6 && IsAlnum(name[i]) {
      BaseIsAlnum(name, i + 1);
    }
  }

  lemma AddressIsCanonical(base: seq<byte>, ssid: nat)
    requires IsBase(base)
    ensures Canonical(Address(base, ssid))
  {
    var a := Address(base, ssid);
    assert forall i | 0 <= i < |base| :: a[i] / 2 == Upper(base[i]) && IsAlnum(base[i]);
  }

  /** Whatever text is accepted, the address is canonical. */
  lemma EncodedIsCanonical(name: seq<byte>)
    requires Encoded(name).Entry?
    ensures Canonical(Encoded(name).address)
  {
    var k := BaseEnd(name, 0);
    BaseIsAlnum(name, 0);
    forall ssid: nat ensures Canonical(Address(name[..k], ssid)) {
      AddressIsCanonical(name[..k], ssid);
    }
  }

  lemma {:induction false} LettersOfAddress(base: seq<byte>, ssid: nat, n: nat)
    requires IsUpperBase(base) && n <= 6
    ensures Letters(Address(base, ssid), n) == if n <= |base| then base[..n] else base
    decreases n
  {
    if n > 0 {
      LettersOfAddress(base, ssid, n - 1);
      var a := Address(base, ssid);
      if n <= |base| {
        assert IsUpper(base[n - 1]) || IsDigit(base[n - 1]);
        assert base[..n] == base[..n - 1] + [base[n - 1]];
      }
    }
  }

  /** A packed address decodes to its base and its SSID. */
  lemma DecodedAddress(base: seq<byte>, ssid: nat)
    requires IsUpperBase(base) && ssid <= 15
    ensures Decoded(Address(base, ssid)) == base + SsidText(ssid)
  {
    LettersOfAddress(base, ssid, 6);
    assert base[..|base|] == base;
  }

  /** How many of the six places are used. */
  function Width(a: seq<byte>, i: nat): (k: nat)
    requires |a| == 7 && i <= 6
    ensures i <= k <= 6
    ensures k < 6 ==> a[k] == BLANK
    ensures forall j | i <= j < k :: a[j] != BLANK
    decreases 6 - i
  {
    if i < 6 && a[i] != BLANK then Width(a, i + 1) else i
  }

  /** A canonical address is packed from an upper-case base and an SSID. */
  lemma CanonicalIsPacked(a: seq<byte>) returns (base: seq<byte>)
    requires Canonical(a)
    ensures IsUpperBase(base) && a == Address(base, Ssid(a))
  {
    var k := Width(a, 0);
    base := seq(k, i requires 0 <= i < k => a[i] / 2);
    forall i | 0 <= i < k ensures (IsUpper(base[i]) || IsDigit(base[i])) && a[i] == Shl(Upper(base[i])) {
      assert IsCallChar(a[i] / 2) && a[i] == a[i] / 2 * 2;
    }
    assert a[6] == (Ssid(a) + 48) * 2 % 32;
    PackedIs(a, base, Ssid(a));
  }

  lemma ScannedNumber(s: nat)
    requires s <= 15
    ensures Scanned(Number(s)) == Some(s)
  {
    var ds := Number(s);
    assert ds[0..|ds|] == ds;
    if s < 10 {
      assert DigitsEnd(ds, 0) == 1;
      assert Value(ds) == Value([]) * 10 + s;
    } else {
      assert DigitsEnd(ds, 0) == DigitsEnd(ds, 1) == 2;
      assert ds[..1] == [49];
      assert Value([49]) == Value([]) * 10 + 1;
    }
  }

  /** Upper-case base and decimal SSID, 0 left out: the text encodes to exactly the packed address. */
  lemma EncodedText(base: seq<byte>, s: nat)
    requires IsUpperBase(base) && s <= 15
    ensures Encoded(base + SsidText(s)) == Entry(Address(base, s))
  {
    var name := base + SsidText(s);
    BaseEndsAt(base, SsidText(s), 0);
    assert name[..|base|] == base;
    if s != 0 {
      assert name[|base| + 1..] == Number(s);
      ScannedNumber(s);
    }
  }

  /** Decoding then encoding gives an address back exactly when it is canonical. */
  lemma EncodeInvertsDecodeIff(a: seq<byte>)
    requires |a| == 7
    ensures Encoded(Decoded(a)) == Entry(a) <==> Canonical(a)
  {
    if Canonical(a) {
      var base := CanonicalIsPacked(a);
      DecodedAddress(base, Ssid(a));
      EncodedText(base, Ssid(a));
    } else if Encoded(Decoded(a)) == Entry(a) {
      EncodedIsCanonical(Decoded(a));
    }
  }

  ghost predicate CanonicalText(t: seq<byte>) {
    exists base: seq<byte>, s: nat :: IsUpperBase(base) && s <= 15 && t == base + SsidText(s)
  }

  /** Encoding then decoding gives a text back exactly when it is canonical. */
  lemma DecodeInvertsEncodeIff(t: seq<byte>)
    ensures Encoded(t).Entry? && Decoded(Encoded(t).address) == t <==> CanonicalText(t)
  {
    if CanonicalText(t) {
      var base, s: nat :| IsUpperBase(base) && s <= 15 && t == base + SsidText(s);
      EncodedText(base, s);
      DecodedAddress(base, s);
    } else if Encoded(t).Entry? && Decoded(Encoded(t).address) == t {
      EncodedIsCanonical(t);
      var base := CanonicalIsPacked(Encoded(t).address);
      DecodedAddress(base, Ssid(Encoded(t).address));
    }
  }

  /** Any accepted spelling is normalised once and for all by a decode. */
  lemma DecodeNormalises(name: seq<byte>)
    requires Encoded(name).Entry?
    ensures CanonicalText(Decoded(Encoded(name).address))
    ensures Encoded(Decoded(Encoded(name).address)) == Encoded(name)
  {
    EncodedIsCanonical(name);
    EncodeInvertsDecodeIff(Encoded(name).address);
    DecodeInvertsEncodeIff(Decoded(Encoded(name).address));
  }

  /** On canonical addresses: 0 exactly for equal texts, 2 exactly for equal letters with another SSID. */
  lemma CmpDecides(a: seq<byte>, b: seq<byte>)
    requires Canonical(a) && Canonical(b)
    ensures Compared(a, b) == 0 <==> Decoded(a) == Decoded(b)
    ensures Compared(a, b) == 0 <==> a == b
    ensures Compared(a, b) == 2 <==> Letters(a, 6) == Letters(b, 6) && Ssid(a) != Ssid(b)
  {
    var p := CanonicalIsPacked(a);
    var q := CanonicalIsPacked(b);
    PackedLetters(p, Ssid(a));
    PackedLetters(q, Ssid(b));
    LettersOfSame(a, b, 6);
    EncodeInvertsDecodeIff(a);
    EncodeInvertsDecodeIff(b);
    hide Canonical, Encoded, Decoded, Address, Letters, Ssid;
    if Letters(a, 6) == Letters(b, 6) {
      SameBase(p, Ssid(a), Ssid(b));
    }
    if Decoded(a) == Decoded(b) {
      assert a == b;
    }
  }

  /** On any addresses, 0 means the texts are equal; spare bits do not count. */
  lemma {:induction false} LettersOfSame(a: seq<byte>, b: seq<byte>, n: nat)
    requires |a| == |b| == 7 && n <= 6
    ensures SameLetters(a, b) ==> Letters(a, n) == Letters(b, n)
    ensures n == 6 && Compared(a, b) == 0 ==> Decoded(a) == Decoded(b)
    decreases n
  {
    if n > 0 {
      LettersOfSame(a, b, n - 1);
    }
  }

  lemma PackedLetters(base: seq<byte>, ssid: nat)
    requires IsUpperBase(base)
    ensures Letters(Address(base, ssid), 6) == base
  {
    LettersOfAddress(base, ssid, 6);
    assert base[..|base|] == base;
  }

  lemma SameBase(base: seq<byte>, s: nat, t: nat)
    ensures SameLetters(Address(base, s), Address(base, t))
  {
    var a, b := Address(base, s), Address(base, t);
    assert forall i | 0 <= i < 6 :: a[i] == b[i];
  }

  lemma OneLetter(a: seq<byte>, k: nat)
    requires |a| == 7 && k <= 1 && a[k] / 2 != SPACE
    requires forall i | 0 <= i < 6 && i != k :: a[i] == BLANK
    ensures Letters(a, 6) == [a[k] / 2]
  {
    assert Letters(a, 0) == [];
    assert Letters(a, 1) == if k == 0 then [a[k] / 2] else [];
    assert Letters(a, 2) == [a[k] / 2];
    assert Letters(a, 3) == [a[k] / 2];
    assert Letters(a, 4) == [a[k] / 2];
    assert Letters(a, 5) == [a[k] / 2];
  }

  /** The two addresses hold spaces in the same places. */
  predicate SameBlanks(a: seq<byte>, b: seq<byte>)
    requires |a| == |b| == 7
  {
    forall i | 0 <= i < 6 :: a[i] / 2 == SPACE <==> b[i] / 2 == SPACE
  }

  lemma {:induction false} LettersDetermine(a: seq<byte>, b: seq<byte>, n: nat)
    requires |a| == |b| == 7 && n <= 6 && SameBlanks(a, b)
    ensures |Letters(a, n)| == |Letters(b, n)|
    ensures Letters(a, n) == Letters(b, n) ==> forall i | 0 <= i < n :: a[i] / 2 == b[i] / 2
    decreases n
  {
    if n > 0 {
      LettersDetermine(a, b, n - 1);
      LettersSnoc(a, n - 1);
      LettersSnoc(b, n - 1);
      hide Letters;
      SameTails(Letters(a, n - 1), Last(a, n - 1), Letters(b, n - 1), Last(b, n - 1));
    }
  }

  lemma LettersSnoc(a: seq<byte>, i: nat)
    requires i < |a|
    ensures Letters(a, i + 1) == Letters(a, i) + Last(a, i)
  {
  }

  function Last(a: seq<byte>, i: nat): seq<byte>
    requires i < |a|
  {
    if a[i] / 2 == SPACE then [] else [a[i] / 2]
  }

  lemma SameTails(p: seq<byte>, s: seq<byte>, q: seq<byte>, t: seq<byte>)
    requires |p| == |q|
    ensures p + s == q + t ==> p == q && s == t
  {
    if p + s == q + t {
      assert p == (p + s)[..|p|] && q == (q + t)[..|p|];
      assert s == (p + s)[|p|..] && t == (q + t)[|p|..];
    }
  }

  lemma SsidTextDetermines(s: nat, t: nat)
    requires s <= 15 && t <= 15
    ensures SsidText(s) == SsidText(t) ==> s == t
  {
    if s != 0 && t != 0 && SsidText(s) == SsidText(t) {
      assert Number(s) == SsidText(s)[1..] == SsidText(t)[1..] == Number(t);
      assert Number(s)[|Number(s)| - 1] == Number(t)[|Number(t)| - 1];
    }
  }

  /**
   What 0 means, on any two addresses: the texts are equal and the spaces stand in
   the same places. So between addresses of equal text the comparison says 0 exactly
   if their spaces do.
   */
  lemma CmpIsZeroIff(a: seq<byte>, b: seq<byte>)
    requires |a| == |b| == 7
    ensures Compared(a, b) == 0 <==> Decoded(a) == Decoded(b) && SameBlanks(a, b)
  {
    LettersOfSame(a, b, 6);
    if Decoded(a) == Decoded(b) && SameBlanks(a, b) {
      LettersDetermine(a, b, 6);
      SameTails(Letters(a, 6), SsidText(Ssid(a)), Letters(b, 6), SsidText(Ssid(b)));
      SsidTextDetermines(Ssid(a), Ssid(b));
    }
  }

  /** Off the canonical addresses equal texts can compare as different: a space in front. */
  lemma EqualTextsCanDiffer()
    ensures exists a, b: seq<byte> ::
              |a| == |b| == 7 && Valid(a) && Valid(b) && Decoded(a) == Decoded(b) && Compared(a, b) == 1
  {
    var a: seq<byte> := [BLANK, 130, BLANK, BLANK, BLANK, BLANK, 0];
    var b: seq<byte> := [130, BLANK, BLANK, BLANK, BLANK, BLANK, 0];
    assert a[0] / 2 != b[0] / 2;
    OneLetter(a, 1);
    OneLetter(b, 0);
  }

  // ---- Which texts are accepted ----------------------------------------

  /** The number that an optional sign and some digits spell, however long. */
  function SignedValue(sign: seq<byte>, digits: seq<byte>): int {
    if sign == [45] then -Value(digits) else Value(digits)
  }

  predicate AllBlank(bs: seq<byte>) {
    forall i | 0 <= i < |bs| :: bs[i] == 32 || bs[i] == 9
  }

  /**
   How an SSID is written: blanks, an optional sign, digits, and anything behind them
   that is not a digit. It counts in its low 32 bits. (In ASCII 32 is the space, 9 the
   tab, 43 and 45 the signs, 48 to 57 the digits, 65 to 90 and 97 to 122 the letters.)
   */
  predicate SpellsSsid(text: seq<byte>, blanks: seq<byte>, sign: seq<byte>,
                       digits: seq<byte>, junk: seq<byte>, ssid: nat) {
    && text == blanks + (sign + (digits + junk))
    && AllBlank(blanks) && (sign == [] || sign == [43] || sign == [45])
    && digits != [] && (forall d | d in digits :: 48 <= d <= 57) && (junk == [] || junk[0] < 48 || 57 < junk[0])
    && ssid <= 15 && SignedValue(sign, digits) % 0x1_0000_0000 == ssid
  }

  ghost predicate HasSsid(text: seq<byte>, ssid: nat) {
    exists blanks, sign, digits, junk :: SpellsSsid(text, blanks, sign, digits, junk, ssid)
  }

  /**
   What an acceptable text is: at most six letters or digits, alone, or followed by one
   character (a dash, unless six came before it) and then by an SSID from 0 to 15.
   */
  ghost predicate Spells(name: seq<byte>, base: seq<byte>, ssid: nat) {
    && |base| <= 6
    && (forall i | 0 <= i < |base| :: 48 <= base[i] <= 57 || 65 <= base[i] <= 90 || 97 <= base[i] <= 122)
    && ((name == base && ssid == 0)
        || (|base| < |name| && base == name[..|base|] && (|base| < 6 ==> name[|base|] == 45)
            && HasSsid(name[|base| + 1..], ssid)))
  }

  lemma {:induction false} BlanksEndAt(blanks: seq<byte>, rest: seq<byte>, i: nat)
    requires AllBlank(blanks) && i <= |blanks| && (rest == [] || !IsBlank(rest[0]))
    ensures BlanksEnd(blanks + rest, i) == |blanks|
    decreases |blanks| - i
  {
    if i < |blanks| {
      BlanksEndAt(blanks, rest, i + 1);
    }
  }

  lemma {:induction false} DigitsEndAt(before: seq<byte>, digits: seq<byte>, junk: seq<byte>, i: nat)
    requires AllDigits(digits) && |before| <= i <= |before| + |digits| && (junk == [] || !IsDigit(junk[0]))
    ensures DigitsEnd(before + digits + junk, i) == |before| + |digits|
    decreases |before| + |digits| - i
  {
    var b := before + digits + junk;
    if i < |before| + |digits| {
      assert b[i] == digits[i - |before|] && digits[i - |before|] in digits;
      DigitsEndAt(before, digits, junk, i + 1);
    } else {
      assert junk != [] ==> b[i] == junk[0];
    }
  }

  lemma NegatedLow(v: int)
    ensures ToI32(-ToI32(v)) == ToI32(-v)
  {
    var k := v / 0x1_0000_0000;
    assert ToI32(v) == v - k * 0x1_0000_0000 || ToI32(v) == v - (k + 1) * 0x1_0000_0000;
    if ToI32(v) == v - k * 0x1_0000_0000 {
      Shift32(-v, k);
    } else {
      Shift32(-v, k + 1);
    }
  }

  lemma SmallLow(v: int)
    ensures 0 <= ToI32(v) <= 15 <==> v % 0x1_0000_0000 <= 15
    ensures 0 <= ToI32(v) <= 15 ==> ToI32(v) == v % 0x1_0000_0000
  {
  }

  /** What the scan makes of a spelled number. */
  lemma ScannedSpelling(blanks: seq<byte>, sign: seq<byte>, digits: seq<byte>, junk: seq<byte>)
    requires AllBlank(blanks) && (sign == [] || sign == [PLUS] || sign == [DASH])
    requires digits != [] && AllDigits(digits) && (junk == [] || !IsDigit(junk[0]))
    ensures Scanned(blanks + (sign + (digits + junk))) == Some(ToI32(SignedValue(sign, digits)))
  {
    hide ToI32, Value, BlanksEnd, DigitsEnd;
    var b := blanks + (sign + (digits + junk));
    var i, start := |blanks|, |blanks| + |sign|;
    SpellingParts(blanks, sign, digits, junk);
    BlanksEndAt(blanks, sign + (digits + junk), 0);
    DigitsEndAt(blanks + sign, digits, junk, start);
    NegatedLow(Value(digits));
  }

  lemma SpellingParts(blanks: seq<byte>, sign: seq<byte>, digits: seq<byte>, junk: seq<byte>)
    requires (sign == [] || sign == [PLUS] || sign == [DASH]) && digits != [] && AllDigits(digits)
    ensures var b := blanks + (sign + (digits + junk));
            var start := |blanks| + |sign|;
            && b == (blanks + sign) + digits + junk
            && b[|blanks|] == (if sign == [] then digits[0] else sign[0])
            && (sign + (digits + junk))[0] == b[|blanks|] && IsDigit(digits[0])
            && b[start..start + |digits|] == digits
  {
    assert digits[0] in digits;
  }

  lemma SsidIsScanned(text: seq<byte>, ssid: nat)
    requires HasSsid(text, ssid)
    ensures Scanned(text) == Some(ssid) && ssid <= 15 && text != [] && !Text.IsTail(text[0])
  {
    var blanks, sign, digits, junk :| SpellsSsid(text, blanks, sign, digits, junk, ssid);
    ScannedSpelling(blanks, sign, digits, junk);
    SmallLow(SignedValue(sign, digits));
    hide Scanned, ToI32, SignedValue, Value;
    assert digits[0] in digits;
    assert text[0] == if blanks != [] then blanks[0] else if sign != [] then sign[0] else digits[0];
  }

  lemma DigitsAre(b: seq<byte>, i: nat)
    requires i <= |b|
    ensures AllDigits(b[i..DigitsEnd(b, i)])
    ensures DigitsEnd(b, i) < |b| ==> !IsDigit(b[DigitsEnd(b, i)])
    decreases |b| - i
  {
    if i < |b| && IsDigit(b[i]) {
      DigitsAre(b, i + 1);
      assert b[i..DigitsEnd(b, i)] == [b[i]] + b[i + 1..DigitsEnd(b, i)];
    }
  }

  lemma BlanksAre(b: seq<byte>, i: nat)
    requires i <= |b|
    ensures forall j | i <= j < BlanksEnd(b, i) :: b[j] == 32 || b[j] == 9
    decreases |b| - i
  {
    if i < |b| && IsBlank(b[i]) {
      BlanksAre(b, i + 1);
    }
  }

  lemma FourParts(text: seq<byte>, i: nat, start: nat, end: nat)
    requires i <= start <= end <= |text| && start <= i + 1
    ensures text == text[..i] + (text[i..start] + (text[start..end] + text[end..]))
    ensures start == i + 1 ==> text[i..start] == [text[i]]
    ensures start == i ==> text[i..start] == []
    ensures end < |text| ==> text[end..][0] == text[end]
  {
  }

  /** The parts that a successful scan went through. */
  lemma ScanParts(text: seq<byte>)
    returns (blanks: seq<byte>, sign: seq<byte>, digits: seq<byte>, junk: seq<byte>)
    requires Scanned(text).Some?
    ensures text == blanks + (sign + (digits + junk))
    ensures AllBlank(blanks) && (sign == [] || sign == [PLUS] || sign == [DASH])
    ensures digits != [] && AllDigits(digits) && (junk == [] || !IsDigit(junk[0]))
  {
    hide ToI32, Value;
    var i := BlanksEnd(text, 0);
    var start := if Signed(text, i) then i + 1 else i;
    var end := DigitsEnd(text, start);
    BlanksAre(text, 0);
    DigitsAre(text, start);
    hide BlanksEnd, DigitsEnd;
    FourParts(text, i, start, end);
    blanks, sign, digits, junk := text[..i], text[i..start], text[start..end], text[end..];
  }

  lemma ScannedIsSsid(text: seq<byte>, ssid: nat)
    requires Scanned(text) == Some(ssid) && ssid <= 15
    ensures HasSsid(text, ssid)
  {
    var blanks, sign, digits, junk := ScanParts(text);
    hide Scanned, Value, AllBlank, AllDigits;
    ScannedSpelling(blanks, sign, digits, junk);
    SmallLow(SignedValue(sign, digits));
    assert SpellsSsid(text, blanks, sign, digits, junk, ssid);
  }

  /** What encodes, for every text: exactly the acceptable ones, to their base and SSID. */
  lemma SpelledIsEncoded(name: seq<byte>, base: seq<byte>, ssid: nat)
    requires Spells(name, base, ssid)
    ensures Encoded(name) == Entry(Address(base, ssid)) && ssid <= 15
  {
    if name == base && ssid == 0 {
      BareBase(base);
      BareIsInterposed(base);
    } else {
      var text := name[|base| + 1..];
      SsidIsScanned(text, ssid);
      hide Scanned, HasSsid, Address;
      var rest := name[|base|..];
      assert name == base + rest && rest[0] == name[|base|] && name[..|base|] == base;
      BaseEndsAt(base, rest, 0);
      assert text[0] == name[|base| + 1];
    }
  }

  lemma BareIsInterposed(base: seq<byte>)
    requires IsBase(base)
    ensures InterposerEncoded(base) == Address(base, 0)
  {
    NoDashBefore(base, [], 0);
    assert base + [] == base && base[..|base|] == base;
  }

  lemma EncodedIsSpelled(name: seq<byte>) returns (base: seq<byte>, ssid: nat)
    requires Encoded(name).Entry?
    ensures Spells(name, base, ssid)
  {
    var k := BaseEnd(name, 0);
    BaseIsAlnum(name, 0);
    base, ssid := name[..k], 0;
    hide Address, HasSsid;
    if k == |name| {
      assert name[..k] == name;
    } else {
      ssid := Scanned(name[k + 1..]).value;
      ScannedIsSsid(name[k + 1..], ssid);
    }
  }

  /** The base in capitals. */
  function Capitals(base: seq<byte>): (r: seq<byte>)
    ensures |r| == |base|
    ensures forall i | 0 <= i < |base| :: r[i] == if 97 <= base[i] <= 122 then base[i] - 32 else base[i]
  {
    seq(|base|, i requires 0 <= i < |base| => Upper(base[i]))
  }

  lemma AddressOfCapitals(base: seq<byte>, ssid: nat)
    requires IsBase(base)
    ensures IsUpperBase(Capitals(base)) && Address(base, ssid) == Address(Capitals(base), ssid)
  {
    forall i | 0 <= i < |base| ensures IsUpper(Capitals(base)[i]) || IsDigit(Capitals(base)[i]) {
      assert IsAlnum(base[i]);
    }
  }

  /**
   The bytes of an address (section 3.12 of AX.25 v2.2): six characters, each shifted
   left by one, spaces behind the callsign, and the SSID in bits 1 to 4 of the seventh.
   */
  predicate Holds(a: seq<byte>, base: seq<byte>, ssid: nat) {
    && |a| == 7
    && (forall i | 0 <= i < 6 :: a[i] == 2 * if i < |base| then Capitals(base)[i] as int else 32)
    && a[6] == 2 * ssid
  }

  lemma AddressHolds(base: seq<byte>, ssid: nat)
    requires IsBase(base) && ssid <= 15
    ensures Holds(Address(base, ssid), base, ssid)
  {
    forall i | 0 <= i < 6 ensures Address(base, ssid)[i] == 2 * if i < |base| then Capitals(base)[i] as int else 32 {
      if i < |base| {
        assert IsAlnum(base[i]);
      }
    }
  }

  /** An SSID is written as a dash and its decimal number, 0 not at all. */
  lemma SsidTextIs(s: nat)
    requires 1 <= s <= 15
    ensures SsidText(0) == [] && |SsidText(s)| == 1 + |Text.Decimal(s)| && SsidText(s)[0] == 45
    ensures forall i | 0 <= i < |Text.Decimal(s)| :: SsidText(s)[1 + i] == Text.Decimal(s)[i] as int
  {
    if s >= 10 {
      assert Text.Decimal(s) == Text.Decimal(1) + Text.Decimal(s - 10);
    }
  }

  /**
   Acceptance, for every text: `encode_entry` accepts exactly the acceptable texts, and
   the address it gives decodes to the base in capitals and the SSID.
   */
  lemma AcceptedIff(name: seq<byte>)
    ensures Encoded(name).Entry? <==> exists base: seq<byte>, ssid: nat :: Spells(name, base, ssid)
    ensures forall base: seq<byte>, ssid: nat | Spells(name, base, ssid) ::
              Encoded(name).Entry? && |Encoded(name).address| == 7 && ssid <= 15
              && Decoded(Encoded(name).address) == Capitals(base) + SsidText(ssid)
              && Holds(Encoded(name).address, base, ssid)
  {
    hide Encoded, Spells, Decoded, Address, Capitals, SsidText, Holds;
    forall base: seq<byte>, ssid: nat | Spells(name, base, ssid)
      ensures Encoded(name).Entry? && |Encoded(name).address| == 7 && ssid <= 15
              && Decoded(Encoded(name).address) == Capitals(base) + SsidText(ssid)
              && Holds(Encoded(name).address, base, ssid)
    {
      SpelledIsEncoded(name, base, ssid);
      SpelledHasBase(name, base, ssid);
      AddressOfCapitals(base, ssid);
      DecodedAddress(Capitals(base), ssid);
      AddressHolds(base, ssid);
    }
    if Encoded(name).Entry? {
      var base, ssid := EncodedIsSpelled(name);
    }
  }

  lemma SpelledHasBase(name: seq<byte>, base: seq<byte>, ssid: nat)
    requires Spells(name, base, ssid)
    ensures IsBase(base)
  {
  }

  /** A symbol that is no letter, digit or dash among the first six characters is refused. */
  lemma BadSymbolIsRefused(name: seq<byte>, k: nat)
    requires k < |name| && k < 6 && (forall i | 0 <= i < k :: IsAlnum(name[i]))
    requires !IsAlnum(name[k]) && name[k] != DASH
    ensures Encoded(name) == Rejected
  {
    assert name == name[..k] + name[k..] && name[k..][0] == name[k];
    BaseEndsAt(name[..k], name[k..], 0);
  }

  /** `Value` is the number that the decimal text stands for. */
  lemma {:induction false} ValueOfDecimal(n: nat, ds: seq<byte>)
    requires |ds| == |Text.Decimal(n)| && forall i | 0 <= i < |ds| :: ds[i] == Text.Decimal(n)[i] as int
    ensures Value(ds) == n && AllDigits(ds)
    decreases n
  {
    var t := Text.Decimal(n);
    if n < 10 {
      assert ds[..|ds| - 1] == [];
    } else {
      assert t[..|t| - 1] == Text.Decimal(n / 10);
      ValueOfDecimal(n / 10, ds[..|ds| - 1]);
    }
    forall d | d in ds ensures IsDigit(d) {
      var i :| 0 <= i < |ds| && ds[i] == d;
      assert t[i] in t && Text.IsDigit(t[i]);
    }
  }

  // ---- The two encoders ------------------------------------------------

  lemma {:induction false} NoDashBefore(base: seq<byte>, rest: seq<byte>, i: nat)
    requires IsBase(base) && i <= |base| && (rest == [] || rest[0] == DASH)
    ensures FirstDash(base + rest, i) == |base|
    decreases |base| - i
  {
    if i < |base| {
      assert IsAlnum(base[i]);
      NoDashBefore(base, rest, i + 1);
    }
  }

  lemma {:induction false} DigitsRunToTheEnd(ds: seq<byte>, i: nat)
    requires AllDigits(ds) && i <= |ds|
    ensures DigitsEnd(ds, i) == |ds|
    decreases |ds| - i
  {
    if i < |ds| {
      assert ds[i] in ds;
      DigitsRunToTheEnd(ds, i + 1);
    }
  }

  lemma {:induction false} ValueIsNatural(ds: seq<byte>)
    requires AllDigits(ds)
    ensures Value(ds) >= 0
  {
    if ds != [] {
      assert ds[|ds| - 1] in ds;
      ValueIsNatural(ds[..|ds| - 1]);
    }
  }

  lemma ScannedDigits(ds: seq<byte>)
    requires ds != [] && AllDigits(ds)
    ensures Scanned(ds) == Some(ToI32(Value(ds))) && Value(ds) >= 0
  {
    assert ds[0] in ds;
    DigitsRunToTheEnd(ds, 0);
    ValueIsNatural(ds);
    assert ds[0..|ds|] == ds;
  }

  /**
     For a callsign with a decimal SSID of any length: libax25 accepts it exactly
     if the SSID is at most 15 modulo 2^32, and the two encoders agree exactly if it
     is at most 15 or a multiple of 2^32. Without an SSID they always agree.
   */
  lemma EncodersAgreeIff(base: seq<byte>, ds: seq<byte>)
    requires IsBase(base) && ds != [] && AllDigits(ds)
    ensures Encoded(base) == Entry(InterposerEncoded(base))
    ensures var name := base + [DASH] + ds;
            && (Encoded(name).Entry? <==> Value(ds) % 0x1_0000_0000 <= 15)
            && (Encoded(name) == Entry(InterposerEncoded(name)) <==>
                  Value(ds) <= 15 || Value(ds) % 0x1_0000_0000 == 0)
  {
    hide Address, Encoded, InterposerEncoded, InterposerSsid, Value, Scanned, ToI32, IsBase, AllDigits;
    BareBase(base);
    WithDigits(base, ds);
    ScannedDigits(ds);
    SsidOfDigits(ds);
    SsidCases(Value(ds), InterposerSsid(ds));
    SsidsDiffer(base, ToI32(Value(ds)), InterposerSsid(ds));
  }

  lemma SsidCases(v: nat, t: nat)
    requires t == if v < 256 then v % 16 else 0
    ensures 0 <= ToI32(v) <= 15 <==> v % 0x1_0000_0000 <= 15
    ensures 0 <= ToI32(v) <= 15 && ToI32(v) == t <==> v <= 15 || v % 0x1_0000_0000 == 0
    ensures t <= 15
  {
    var m := v % 0x1_0000_0000;
    if v < 0x1_0000_0000 {
      assert m == v;
    }
  }

  /** Both encoders on a base and a decimal SSID. */
  lemma WithDigits(base: seq<byte>, ds: seq<byte>)
    requires IsBase(base) && ds != [] && AllDigits(ds)
    ensures var v := ToI32(Value(ds));
            Encoded(base + [DASH] + ds) == if 0 <= v <= 15 then Entry(Address(base, v)) else Rejected
    ensures InterposerEncoded(base + [DASH] + ds) == Address(base, InterposerSsid(ds))
  {
    hide Address, Scanned, InterposerSsid, Value, ToI32, Encoded, BaseEnd, FirstDash;
    var name, rest := base + [DASH] + ds, [DASH] + ds;
    assert name == base + rest;
    BaseEndsAt(base, rest, 0);
    NoDashBefore(base, rest, 0);
    ScannedDigits(ds);
    assert ds[0] in ds;
    Parts(base, ds);
    EncodedAtDash(name, |base|, ToI32(Value(ds)));
  }

  lemma Parts(base: seq<byte>, ds: seq<byte>)
    requires ds != []
    ensures var name := base + [DASH] + ds;
            && name[..|base|] == base && name[|base|] == DASH
            && name[|base| + 1] == ds[0] && name[|base| + 1..] == ds
  {
  }

  lemma EncodedAtDash(name: seq<byte>, k: nat, v: int)
    requires k + 1 < |name| && k == BaseEnd(name, 0) && name[k] == DASH && IsDigit(name[k + 1])
    requires Scanned(name[k + 1..]) == Some(v)
    ensures Encoded(name) == if 0 <= v <= 15 then Entry(Address(name[..k], v)) else Rejected
  {
    hide Address, Scanned, BaseEnd;
  }

  lemma BareBase(base: seq<byte>)
    requires IsBase(base)
    ensures Encoded(base) == Entry(InterposerEncoded(base))
  {
    BaseEndsAt(base, [], 0);
    NoDashBefore(base, [], 0);
    assert base + [] == base && base[..|base|] == base;
  }

  lemma SsidOfDigits(ds: seq<byte>)
    requires ds != [] && AllDigits(ds)
    ensures InterposerSsid(ds) == if Value(ds) < 256 then Value(ds) % 16 else 0
  {
    assert ds[0] in ds;
    ValueIsNatural(ds);
  }

  lemma SsidsDiffer(base: seq<byte>, s: int, t: nat)
    requires t <= 15
    ensures 0 <= s <= 15 ==> (Address(base, s) == Address(base, t) <==> s == t)
  {
    if 0 <= s <= 15 && s != t {
      assert Address(base, s)[6] != Address(base, t)[6];
    }
  }

  /** Every canonical text survives the interposer's encode and decode too. */
  lemma InterposerRoundTrips(t: seq<byte>)
    requires CanonicalText(t)
    ensures Encoded(t) == Entry(InterposerEncoded(t)) && Decoded(InterposerEncoded(t)) == t
  {
    hide CanonicalText, Encoded, Decoded, InterposerEncoded;
    DecodeInvertsEncodeIff(t);
    EncodersAgreeOnCanonical(t);
  }

  lemma EncodersAgreeOnCanonical(t: seq<byte>)
    requires CanonicalText(t)
    ensures Encoded(t) == Entry(InterposerEncoded(t))
  {
    var base, s: nat :| IsUpperBase(base) && s <= 15 && t == base + SsidText(s);
    hide Encoded, InterposerEncoded, Value;
    assert IsBase(base);
    if s == 0 {
      assert t == base;
      BareBase(base);
    } else {
      NumberSpells(s);
      assert t == base + [DASH] + Number(s);
      hide Number;
      EncodersAgreeIff(base, Number(s));
    }
  }

  lemma NumberSpells(s: nat)
    requires s <= 15
    ensures AllDigits(Number(s)) && Value(Number(s)) == s
  {
    if s >= 10 {
      assert Number(s)[..1] == [49];
      assert Value([49]) == Value([]) * 10 + 1;
    } else {
      assert Value(Number(s)) == Value([]) * 10 + s;
    }
  }

  /** The first six, or all of them. */
  function FirstSix(base: seq<byte>): seq<byte> {
    if |base| <= 6 then base else base[..6]
  }

  /**
   What the interposer makes of any text of letters and digits, a dash and an SSID: the
   first six in capitals, the rest dropped without a word, and the SSID modulo 16, 0
   unless it is a plain number below 256.
   */
  lemma InterposerReads(base: seq<byte>, text: seq<byte>, digits: seq<byte>)
    requires forall i | 0 <= i < |base| :: IsAlnum(base[i])
    requires text == digits || text == [PLUS] + digits
    requires text != [] && text[0] == PLUS ==> text == [PLUS] + digits
    ensures var a := InterposerEncoded(base + [DASH] + text);
            var plain := digits != [] && (forall i | 0 <= i < |digits| :: IsDigit(digits[i])) && Value(digits) < 256;
            Decoded(a) == Capitals(FirstSix(base)) + SsidText(if plain then Value(digits) % 16 else 0)
  {
    var six := FirstSix(base);
    var n := InterposerSsid(text);
    var plain := digits != [] && (forall i | 0 <= i < |digits| :: IsDigit(digits[i])) && Value(digits) < 256;
    DashStands(base, text);
    SsidRead(text, digits);
    assert Address(base, n) == Address(six, n);
    AddressOfCapitals(six, n);
    DecodedAddress(Capitals(six), n);
  }

  lemma DashStands(base: seq<byte>, text: seq<byte>)
    requires forall i | 0 <= i < |base| :: IsAlnum(base[i])
    ensures InterposerEncoded(base + [DASH] + text) == Address(base, InterposerSsid(text))
    ensures InterposerSsid(text) <= 15
  {
    var name := base + [DASH] + text;
    DashIsAt(base, [DASH] + text, 0);
    assert name == base + ([DASH] + text);
    assert name[..|base|] == base && name[|base| + 1..] == text;
  }

  lemma {:induction false} DashIsAt(base: seq<byte>, rest: seq<byte>, i: nat)
    requires (forall j | 0 <= j < |base| :: IsAlnum(base[j])) && i <= |base| && rest != [] && rest[0] == DASH
    ensures FirstDash(base + rest, i) == |base|
    decreases |base| - i
  {
    if i < |base| {
      assert IsAlnum(base[i]);
      DashIsAt(base, rest, i + 1);
    }
  }

  lemma SsidRead(text: seq<byte>, digits: seq<byte>)
    requires text == digits || text == [PLUS] + digits
    requires text != [] && text[0] == PLUS ==> text == [PLUS] + digits
    ensures var plain := digits != [] && (forall i | 0 <= i < |digits| :: IsDigit(digits[i])) && Value(digits) < 256;
            && (plain ==> Value(digits) >= 0)
            && InterposerSsid(text) == if plain && Value(digits) >= 0 then Value(digits) % 16 else 0
  {
    assert AllDigits(digits) <==> forall i | 0 <= i < |digits| :: IsDigit(digits[i]) by {
      if AllDigits(digits) {
        assert forall i | 0 <= i < |digits| :: digits[i] in digits;
      }
    }
    if AllDigits(digits) {
      ValueIsNatural(digits);
    }
    if text != [] && text[0] == PLUS {
      assert text[1..] == digits;
    }
  }

  // ---- When encoding panics --------------------------------------------

  predicate IsAlnumChar(c: char) {
    c as int < 128 && IsAlnum(c as int)
  }

  lemma HeadOfUtf8(s: string)
    requires s != []
    ensures Text.Utf8(s) != [] && !Text.IsTail(Text.Utf8(s)[0])
    ensures s[0] as int < 128 ==> Text.Utf8(s) == [s[0] as int] + Text.Utf8(s[1..])
    ensures s[0] as int >= 128 ==> Text.Utf8(s)[0] >= 192 && |Text.Utf8(s)| >= 2 && Text.IsTail(Text.Utf8(s)[1])
  {
    assert Text.Utf8(s)[0] == Text.EncodeChar(s[0])[0];
    if s[0] as int >= 128 {
      assert Text.Utf8(s)[1] == Text.EncodeChar(s[0])[1];
    }
  }

  /** The scan for the base sees the characters one by one. */
  lemma {:induction false} BaseOfUtf8(s: string, i: nat) returns (k: nat)
    requires i <= 6 && i <= |s| && forall j | 0 <= j < i :: IsAlnumChar(s[j])
    requires i <= |Text.Utf8(s)| && Text.Utf8(s)[i..] == Text.Utf8(s[i..])
    ensures k == BaseEnd(Text.Utf8(s), i) && k <= |s| && Text.Utf8(s)[k..] == Text.Utf8(s[k..])
    ensures (forall j | 0 <= j < k :: IsAlnumChar(s[j])) && (k < |s| && k < 6 ==> !IsAlnumChar(s[k]))
    decreases 6 - i
  {
    var u := Text.Utf8(s);
    k := i;
    if i < |s| {
      HeadOfUtf8(s[i..]);
      assert u[i] == u[i..][0];
      if i < 6 && IsAlnumChar(s[i]) {
        assert s[i..][1..] == s[i + 1..];
        assert u[i + 1..] == u[i..][1..];
        k := BaseOfUtf8(s, i + 1);
      }
    } else {
      assert s[i..] == [];
    }
  }

  /** The bytes of the character at `k` and of its neighbour. */
  lemma AtCut(s: string, k: nat)
    requires k < |s| && k <= |Text.Utf8(s)| && Text.Utf8(s)[k..] == Text.Utf8(s[k..])
    ensures k < |Text.Utf8(s)|
    ensures s[k] as int < 128 ==> Text.Utf8(s)[k] == s[k] as int
    ensures s[k] as int < 128 && k + 1 < |Text.Utf8(s)| ==> !Text.IsTail(Text.Utf8(s)[k + 1])
    ensures s[k] as int >= 128 ==>
              Text.Utf8(s)[k] >= 192 && k + 1 < |Text.Utf8(s)| && Text.IsTail(Text.Utf8(s)[k + 1])
  {
    HeadOfUtf8(s[k..]);
    hide Text.Utf8;
    var u, v := Text.Utf8(s), Text.Utf8(s[k..]);
    assert u[k] == v[0] && (|v| > 1 ==> u[k + 1] == v[1]);
    assert s[k..][1..] == s[k + 1..];
    if k + 1 < |s| {
      HeadOfUtf8(s[k + 1..]);
    } else {
      NothingIsNoBytes(s[k + 1..]);
    }
  }

  lemma NothingIsNoBytes(s: string)
    requires s == []
    ensures Text.Utf8(s) == []
  {
  }

  /** `encode_entry` panics exactly on six letters or digits followed by a character outside ASCII. */
  lemma EncodePanicsIff(s: string)
    ensures Encoded(Text.Utf8(s)) == Panics <==>
            |s| >= 7 && (forall i | 0 <= i < 6 :: IsAlnumChar(s[i])) && s[6] as int >= 128
  {
    hide Text.Utf8, Scanned, Address, BaseEnd;
    var k := BaseOfUtf8(s, 0);
    if k < |s| {
      AtCut(s, k);
    } else {
      NothingIsNoBytes(s[k..]);
    }
  }
}
