/**
 JSON objects as an RHP request uses them (RFC 8259): members with a string or a
 number for a value. A writer as serde_json's derived one, a reader that knows no
 more than the grammar, and its round trip for every object.
 */
module Json {
  import opened Bytes
  import opened Text

  datatype Value = Str(s: string) | Num(n: nat)

  datatype Member = Member(name: string, value: Value)

  // ---- Writing ---------------------------------------------------------

  function Quoted(s: string): string {
    "\"" + Escape(s) + "\""
  }

  function ValueText(v: Value): string {
    match v
    case Str(s) => Quoted(s)
    case Num(n) => Decimal(n)
  }

  function MemberText(m: Member): string {
    Quoted(m.name) + (":" + ValueText(m.value))
  }

  /** The members and the closing brace. */
  function MembersText(ms: seq<Member>): (s: string)
    requires ms != []
  {
    MemberText(ms[0]) + if |ms| == 1 then "}" else "," + MembersText(ms[1..])
  }

  /** The members in their order, without white space. */
  function ObjectText(ms: seq<Member>): string {
    "{" + if ms == [] then "}" else MembersText(ms)
  }

  // ---- Reading ---------------------------------------------------------

  function ReadString(s: string): (r: Option<(string, string)>)
    ensures r.Some? ==> |r.value.1| < |s|
  {
    if s != [] && s[0] == '\"' then Unescape(s[1..]) else None
  }

  /** A number without a sign, a fraction or an exponent; no leading zero. */
  function ReadNumber(s: string): (r: Option<(nat, string)>)
    ensures r.Some? ==> |r.value.1| < |s|
  {
    var k := LeadingDigits(s);
    if k == 0 || (k > 1 && s[0] == '0') then None else Some((DigitsOf(s, k), s[k..]))
  }

  function DigitsOf(s: string, k: nat): nat
    requires k <= |s| && forall i | 0 <= i < k :: IsDigit(s[i])
  {
    assert forall c | c in s[..k] :: exists i :: 0 <= i < k && s[i] == c;
    DigitsValue(s[..k])
  }

  function ReadValue(s: string): (r: Option<(Value, string)>)
    ensures r.Some? ==> |r.value.1| < |s|
  {
    if s != [] && s[0] == '\"' then
      match ReadString(s)
      case Some((t, rest)) => Some((Str(t), rest))
      case None => None
    else
      match ReadNumber(s)
      case Some((n, rest)) => Some((Num(n), rest))
      case None => None
  }

  function ReadMember(s: string): (r: Option<(Member, string)>)
    ensures r.Some? ==> |r.value.1| < |s|
  {
    match ReadString(s)
    case None => None
    case Some((name, rest)) =>
      if rest == [] || rest[0] != ':' then None
      else
        match ReadValue(rest[1..])
        case Some((value, rest')) => Some((Member(name, value), rest'))
        case None => None
  }

  /** One member or more, up to the closing brace, and the text behind it. */
  function ReadMembers(s: string): Option<(seq<Member>, string)>
    decreases |s|
  {
    match ReadMember(s)
    case None => None
    case Some((m, rest)) =>
      if rest == [] then None
      else if rest[0] == '}' then Some(([m], rest[1..]))
      else if rest[0] == ',' then
        match ReadMembers(rest[1..])
        case Some((ms, rest')) => Some(([m] + ms, rest'))
        case None => None
      else None
  }

  /** A text that is one object and nothing else. */
  function ReadObject(s: string): Option<seq<Member>> {
    if s == [] || s[0] != '{' then None
    else if s[1..] == "}" then Some([])
    else
      match ReadMembers(s[1..])
      case Some((ms, "")) => Some(ms)
      case _ => None
  }

  /** The value of the first member called `name`. */
  function Get(ms: seq<Member>, name: string): Option<Value> {
    if ms == [] then None else if ms[0].name == name then Some(ms[0].value) else Get(ms[1..], name)
  }

  // ---- Every object is read back ---------------------------------------

  lemma StringIsRead(t: string, rest: string)
    ensures ReadString(Quoted(t) + rest) == Some((t, rest)) && Quoted(t)[0] == '\"'
  {
    assert (Quoted(t) + rest)[1..] == Escape(t) + "\"" + rest;
    EscapeRoundTrips(t, rest);
  }

  /** A decimal has no leading zero. */
  lemma {:induction false} NoLeadingZero(n: nat)
    ensures Decimal(n)[0] == '0' ==> |Decimal(n)| == 1 && n == 0
  {
    if n >= 10 {
      NoLeadingZero(n / 10);
    }
  }

  lemma NumberIsRead(n: nat, rest: string)
    requires rest != [] && !IsDigit(rest[0])
    ensures ReadNumber(Decimal(n) + rest) == Some((n, rest))
  {
    LeadingDigitsOf(Decimal(n), rest);
    DecimalRoundTrips(n);
    NoLeadingZero(n);
    assert (Decimal(n) + rest)[..|Decimal(n)|] == Decimal(n);
  }

  lemma ValueIsRead(v: Value, rest: string)
    requires rest != [] && !IsDigit(rest[0])
    ensures ReadValue(ValueText(v) + rest) == Some((v, rest))
  {
    match v
    case Str(s) =>
      StringIsRead(s, rest);
    case Num(n) =>
      NumberIsRead(n, rest);
      assert Decimal(n)[0] in Decimal(n);
  }

  lemma MemberIsRead(m: Member, rest: string)
    requires rest != [] && !IsDigit(rest[0])
    ensures ReadMember(MemberText(m) + rest) == Some((m, rest))
  {
    hide ReadString, Quoted, ReadValue, ValueText;
    var value := ValueText(m.value) + rest;
    assert MemberText(m) + rest == Quoted(m.name) + (":" + value);
    StringIsRead(m.name, ":" + value);
    assert (":" + value)[1..] == value;
    ValueIsRead(m.value, rest);
  }

  lemma {:induction false} MembersAreRead(ms: seq<Member>, rest: string)
    requires ms != []
    ensures ReadMembers(MembersText(ms) + rest) == Some((ms, rest))
    decreases |ms|
  {
    hide ReadMember, MemberText;
    var m := ms[0];
    if |ms| == 1 {
      MemberIsRead(m, "}" + rest);
      assert MembersText(ms) + rest == MemberText(m) + ("}" + rest);
      assert ("}" + rest)[1..] == rest && ms == [m];
    } else {
      var tail := MembersText(ms[1..]) + rest;
      MemberIsRead(m, "," + tail);
      assert MembersText(ms) + rest == MemberText(m) + ("," + tail);
      assert ("," + tail)[1..] == tail && ms == [m] + ms[1..];
      MembersAreRead(ms[1..], rest);
    }
  }

  /** The reader gets every object back, whatever names and strings it holds. */
  lemma ObjectIsRead(ms: seq<Member>)
    ensures ReadObject(ObjectText(ms)) == Some(ms)
  {
    var s := ObjectText(ms);
    assert s[0] == '{';
    if ms == [] {
      assert s[1..] == "}";
    } else {
      assert s[1..] == MembersText(ms) && MembersText(ms) == MembersText(ms) + "";
      MembersAreRead(ms, "");
      assert MemberText(ms[0])[0] == '\"';
    }
  }

  lemma ObjectOfFour(a: Member, b: Member, c: Member, d: Member)
    ensures ObjectText([a, b, c, d]) ==
            "{" + (MemberText(a) + ("," + (MemberText(b) + ("," + (MemberText(c) + ("," + (MemberText(d) + "}")))))))
  {
    hide MemberText;
    assert [a, b, c, d][1..] == [b, c, d] && [b, c, d][1..] == [c, d] && [c, d][1..] == [d];
    assert MembersText([c, d]) == MemberText(c) + ("," + (MemberText(d) + "}"));
    assert MembersText([b, c, d]) == MemberText(b) + ("," + MembersText([c, d]));
    assert MembersText([a, b, c, d]) == MemberText(a) + ("," + MembersText([b, c, d]));
  }
}
