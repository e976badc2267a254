/** Reading a line of the log back: a parser of flat JSON objects, and the readers' view of one. It knows nothing of
    the writer. */
module EventReader {
  import opened Common
  import opened EventLines
  import opened JsonText

  /** A value and the text behind it. */
  datatype Taken<T> = Taken(value: T, rest: string)

  datatype Json = Num(n: int) | Str(s: string)
  datatype Member = Member(name: string, value: Json)

  // ---------- strings (section 7 of RFC 8259) ----------

  function HexOf(c: char): (d: Option<nat>)
    ensures d.Some? ==> d.value < 16
  {
    if '0' <= c <= '9' then Some(c as nat - '0' as nat)
    else if 'a' <= c <= 'f' then Some(c as nat - 'a' as nat + 10)
    else if 'A' <= c <= 'F' then Some(c as nat - 'A' as nat + 10)
    else None
  }

  /** The value of hexadecimal digits. */
  function HexValue(s: string): Option<nat> {
    if s == [] then Some(0)
    else
      var high, low := HexValue(s[..|s| - 1]), HexOf(s[|s| - 1]);
      if high.Some? && low.Some? then Some(16 * high.value + low.value) else None
  }

  /** The character of a code point outside the surrogates. */
  function CharOf(n: nat): Option<char> {
    if n < 0xD800 || 0xE000 <= n < 0x11_0000 then Some(n as char) else None
  }

  /** What follows a backslash. */
  function ReadEscape(s: string): (r: Option<Taken<char>>)
    ensures r.Some? ==> |r.value.rest| < |s|
  {
    if s == [] then None
    else
      match s[0]
      case '"' => Some(Taken('"', s[1..]))
      case '\\' => Some(Taken('\\', s[1..]))
      case '/' => Some(Taken('/', s[1..]))
      case 'b' => Some(Taken(8 as char, s[1..]))
      case 'f' => Some(Taken(12 as char, s[1..]))
      case 'n' => Some(Taken('\n', s[1..]))
      case 'r' => Some(Taken('\r', s[1..]))
      case 't' => Some(Taken('\t', s[1..]))
      case 'u' =>
        var code := if |s| < 5 then None else HexValue(s[1..5]);
        if code.None? || CharOf(code.value).None? then None else Some(Taken(CharOf(code.value).value, s[5..]))
      case _ => None
  }

  function ReadChar(s: string): (r: Option<Taken<char>>)
    requires s != []
    ensures r.Some? ==> |r.value.rest| < |s|
  {
    if s[0] == '\\' then ReadEscape(s[1..]) else Some(Taken(s[0], s[1..]))
  }

  /** The rest of a string, behind its opening quote. */
  function ReadString(s: string): (r: Option<Taken<string>>)
    ensures r.Some? ==> |r.value.rest| < |s|
    decreases |s|
  {
    if s == [] then None
    else if s[0] == '"' then Some(Taken("", s[1..]))
    else
      var c := ReadChar(s);
      if c.None? then None
      else
        var more := ReadString(c.value.rest);
        if more.None? then None else Some(Taken([c.value.value] + more.value.value, more.value.rest))
  }

  // ---------- objects (section 4) ----------

  function DigitsAhead(s: string): (k: nat)
    ensures k <= |s| && forall i :: 0 <= i < k ==> IsDigit(s[i])
    ensures k < |s| ==> !IsDigit(s[k])
  {
    if s == [] || !IsDigit(s[0]) then 0 else 1 + DigitsAhead(s[1..])
  }

  /** An integer; fractions and exponents are not read. */
  function ReadNumber(s: string): (r: Option<Taken<int>>)
    ensures r.Some? ==> |r.value.rest| < |s|
  {
    var negative := s != [] && s[0] == '-';
    var t := if negative then s[1..] else s;
    var k := DigitsAhead(t);
    var v: int := Value(t[..k]);
    if k == 0 then None else Some(Taken(if negative then -v else v, t[k..]))
  }

  function ReadValue(s: string): (r: Option<Taken<Json>>)
    ensures r.Some? ==> |r.value.rest| < |s|
  {
    if s != [] && s[0] == '"' then
      var t := ReadString(s[1..]);
      if t.None? then None else Some(Taken(Str(t.value.value), t.value.rest))
    else
      var n := ReadNumber(s);
      if n.None? then None else Some(Taken(Num(n.value.value), n.value.rest))
  }

  function ReadMember(s: string): (r: Option<Taken<Member>>)
    ensures r.Some? ==> |r.value.rest| < |s|
  {
    if s == [] || s[0] != '"' then None
    else
      var name := ReadString(s[1..]);
      if name.None? || name.value.rest == [] || name.value.rest[0] != ':' then None
      else
        var v := ReadValue(name.value.rest[1..]);
        if v.None? then None else Some(Taken(Member(name.value.value, v.value.value), v.value.rest))
  }

  /** One member or more, and the closing brace. */
  function ReadMembers(s: string): Option<seq<Member>>
    decreases |s|
  {
    var m := ReadMember(s);
    if m.None? || m.value.rest == [] then None
    else if m.value.rest == "}" then Some([m.value.value])
    else if m.value.rest[0] != ',' then None
    else
      var more := ReadMembers(m.value.rest[1..]);
      if more.None? then None else Some([m.value.value] + more.value)
  }

  function ReadObject(s: string): Option<seq<Member>> {
    if s == "{}" then Some([])
    else if s != [] && s[0] == '{' then ReadMembers(s[1..])
    else None
  }

  // ---------- the readers' view ----------

  /** The first member of that name. */
  function Item(ms: seq<Member>, name: string): Option<Json> {
    if ms == [] then None else if ms[0].name == name then Some(ms[0].value) else Item(ms[1..], name)
  }

  function NumItem(ms: seq<Member>, name: string): Option<int> {
    match Item(ms, name)
    case Some(Num(n)) => Some(n)
    case _ => None
  }

  function StrItem(ms: seq<Member>, name: string): Option<string> {
    match Item(ms, name)
    case Some(Str(s)) => Some(s)
    case _ => None
  }

  /** Two hexadecimal digits. */
  function ReadByte(s: string): Option<Byte>
    requires |s| == 2
  {
    var high, low := HexOf(s[0]), HexOf(s[1]);
    if high.Some? && low.Some? then Some((16 * high.value + low.value) as Byte) else None
  }

  /** Six bytes between colons. */
  function ReadMac(s: string): Option<Addr> {
    if |s| != 17 || !(s[2] == s[5] == s[8] == s[11] == s[14] == ':') then None
    else
      var b := seq(6, i requires 0 <= i < 6 => ReadByte(s[3 * i..3 * i + 2]));
      if forall i :: 0 <= i < 6 ==> b[i].Some? then
        Some(Addr(b[0].value, b[1].value, b[2].value, b[3].value, b[4].value, b[5].value))
      else None
  }

  /** What the readers take from a line: the fields of the types that they test for. */
  function ReadLine(text: string): Option<Line> {
    var ms := ReadObject(text);
    if ms.None? then None
    else
      var kind, worker, peer := StrItem(ms.value, "type"), NumItem(ms.value, "worker_id"), StrItem(ms.value, "peer");
      Some(Line(
        if kind.None? then None else if kind.value == "in" then Some(In) else Some(Out),
        NumItem(ms.value, "ts"),
        NumItem(ms.value, "mono_us"),
        if worker.Some? && worker.value >= 0 then Some(worker.value) else None,
        if peer.Some? then ReadMac(peer.value) else None,
        StrItem(ms.value, "src")))
  }

  // ---------- a printed object is read back ----------

  lemma EscapeRead(c: char, rest: string)
    ensures Escaped(c)[0] != '"' && ReadChar(Escaped(c) + rest) == Some(Taken(c, rest))
  {
    hide HexValue, HexDigit, CharOf;
    var s := Escaped(c) + rest;
    if |Escaped(c)| == 6 {
      ControlRead(c, rest);
      assert s[0] == '\\' && s[1..] == ['u', '0', '0', HexDigit(c as int / 16), HexDigit(c as int % 16)] + rest;
    } else if |Escaped(c)| == 2 {
      assert s[1..][1..] == rest;
    } else {
      assert s[1..] == rest;
    }
  }

  lemma ControlRead(c: char, rest: string)
    requires c < ' '
    ensures var x, y := HexDigit(c as int / 16), HexDigit(c as int % 16);
            ReadEscape(['u', '0', '0', x, y] + rest) == Some(Taken(c, rest))
  {
    hide HexValue, HexDigit, HexOf;
    var x, y := HexDigit(c as int / 16), HexDigit(c as int % 16);
    var s := ['u', '0', '0', x, y] + rest;
    HexRead(0);
    HexRead(c as int / 16);
    HexRead(c as int % 16);
    assert HexDigit(0) == '0' by { ZeroDigit(); }
    FourDigits('0', '0', x, y);
    assert s[1..5] == ['0', '0', x, y] && s[5..] == rest;
  }

  lemma ZeroDigit()
    ensures HexDigit(0) == '0'
  {
  }

  lemma HexRead(d: nat)
    requires d < 16
    ensures HexOf(HexDigit(d)) == Some(d)
  {
  }

  lemma FourDigits(a: char, b: char, c: char, d: char)
    requires HexOf(a).Some? && HexOf(b).Some? && HexOf(c).Some? && HexOf(d).Some?
    ensures HexValue([a, b, c, d])
            == Some(4096 * HexOf(a).value + 256 * HexOf(b).value + 16 * HexOf(c).value + HexOf(d).value)
  {
    assert HexValue([]) == Some(0);
    assert [] + [a] == [a] && [a] + [b] == [a, b] && [a, b] + [c] == [a, b, c] && [a, b, c] + [d] == [a, b, c, d];
    HexPush([], a);
    HexPush([a], b);
    HexPush([a, b], c);
    HexPush([a, b, c], d);
  }

  lemma HexPush(s: string, c: char)
    requires HexValue(s).Some? && HexOf(c).Some?
    ensures HexValue(s + [c]) == Some(16 * HexValue(s).value + HexOf(c).value)
  {
    assert (s + [c])[..|s|] == s;
  }

  /** An escaped string is read back, whatever it holds. */
  lemma {:induction false} StringBack(s: string, rest: string)
    ensures ReadString(Escape(s) + "\"" + rest) == Some(Taken(s, rest))
  {
    var text := Escape(s) + "\"" + rest;
    if s == [] {
      assert text[1..] == rest;
    } else {
      var tail := Escape(s[1..]) + "\"" + rest;
      assert text == Escaped(s[0]) + tail;
      EscapeRead(s[0], tail);
      StringBack(s[1..], rest);
      assert [s[0]] + s[1..] == s;
    }
  }

  /** A field as it is printed for a member. */
  predicate Prints(f: Field, m: Member) {
    f.name == m.name && Escape(m.name) == m.name
    && match m.value
       case Num(n) => f.value == IntText(n)
       case Str(s) => f.value == Quoted(Escape(s))
  }

  /** What may follow a number. */
  predicate EndsNumber(rest: string) {
    rest != [] && !IsDigit(rest[0])
  }

  lemma {:induction false} DigitsBack(d: string, rest: string)
    requires EndsNumber(rest) && forall i :: 0 <= i < |d| ==> IsDigit(d[i])
    ensures DigitsAhead(d + rest) == |d|
  {
    if d != [] {
      assert (d + rest)[1..] == d[1..] + rest;
      DigitsBack(d[1..], rest);
    } else {
      assert d + rest == rest;
    }
  }

  lemma NumberBack(n: int, rest: string)
    requires EndsNumber(rest)
    ensures ReadNumber(IntText(n) + rest) == Some(Taken(n, rest)) && IntText(n)[0] != '"'
  {
    hide Dec, Value, DigitsAhead;
    var m := if n < 0 then -n else n;
    DigitsBack(Dec(m), rest);
    ValueOfDec(m);
    var t := Dec(m) + rest;
    assert t[..|Dec(m)|] == Dec(m) && t[|Dec(m)|..] == rest;
    if n < 0 {
      assert (IntText(n) + rest)[1..] == t;
    }
  }

  lemma ValueBack(v: Json, rest: string)
    requires EndsNumber(rest)
    ensures var text := match v case Num(n) => IntText(n) case Str(s) => Quoted(Escape(s));
            ReadValue(text + rest) == Some(Taken(v, rest))
  {
    hide Escape, IntText, ReadString, ReadNumber, EndsNumber;
    match v
    case Num(n) => NumberBack(n, rest);
    case Str(s) =>
      StringBack(s, rest);
      assert (Quoted(Escape(s)) + rest)[1..] == Escape(s) + "\"" + rest;
  }

  lemma MemberBack(f: Field, m: Member, rest: string)
    requires Prints(f, m) && EndsNumber(rest)
    ensures ReadMember(FieldText(f)[1..] + rest) == Some(Taken(m, rest))
  {
    hide Escape, ReadString, ReadValue, EndsNumber;
    var behind := ":" + f.value + rest;
    var s := FieldText(f)[1..] + rest;
    assert FieldText(f) == "," + ("\"" + (f.name + "\"" + (":" + f.value)));
    assert s == "\"" + (Escape(m.name) + "\"" + behind);
    assert s[1..] == Escape(m.name) + "\"" + behind;
    StringBack(m.name, behind);
    assert behind[1..] == f.value + rest;
    ValueBack(m.value, rest);
  }

  /** The text of the fields from the front. */
  lemma {:induction false} FieldsFront(fs: seq<Field>)
    requires fs != []
    ensures FieldsText(fs) == FieldText(fs[0]) + FieldsText(fs[1..])
  {
    hide FieldText;
    var n := |fs| - 1;
    if n == 0 {
      assert FieldsText(fs[..0]) == "" && FieldsText(fs[1..]) == "";
    } else {
      FieldsFront(fs[..n]);
      assert fs[..n][1..] == fs[1..][..n - 1] && fs[1..][n - 1] == fs[n];
      assert FieldsText(fs[1..]) == FieldsText(fs[1..][..n - 1]) + FieldText(fs[n]);
    }
  }

  lemma FieldStarts(f: Field)
    ensures |FieldText(f)| > 1 && FieldText(f)[0] == ','
  {
  }

  lemma {:induction false} MembersBack(fs: seq<Field>, ms: seq<Member>)
    requires 0 < |fs| == |ms| && forall i :: 0 <= i < |fs| ==> Prints(fs[i], ms[i])
    ensures ReadMembers(FieldsText(fs)[1..] + "}") == Some(ms)
  {
    hide FieldText, ReadMember, Prints;
    var more := FieldsText(fs[1..]) + "}";
    FieldStarts(fs[0]);
    if |fs| > 1 { FieldStarts(fs[1]); }
    FieldsFront(fs);
    assert FieldsText(fs)[1..] + "}" == FieldText(fs[0])[1..] + more;
    if |fs| == 1 {
      assert more == "}" && [ms[0]] == ms;
      MemberBack(fs[0], ms[0], more);
    } else {
      FieldsFront(fs[1..]);
      assert more[0] == ',' && more[1..] == FieldsText(fs[1..])[1..] + "}";
      MemberBack(fs[0], ms[0], more);
      MembersBack(fs[1..], ms[1..]);
      assert [ms[0]] + ms[1..] == ms;
    }
  }

  /** Every printed object is read back, member by member. */
  lemma ObjectBack(fs: seq<Field>, ms: seq<Member>)
    requires 0 < |fs| == |ms| && forall i :: 0 <= i < |fs| ==> Prints(fs[i], ms[i])
    ensures ReadObject(Object(fs)) == Some(ms)
  {
    MembersBack(fs, ms);
    assert Object(fs)[1..] == FieldsText(fs)[1..] + "}";
    assert |FieldsText(fs)| > 1 by { FieldsFront(fs); }
  }
}
