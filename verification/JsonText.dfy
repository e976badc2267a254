/** The text of a flat JSON object as cJSON prints it without formatting, and where a field name can occur
    in it. */
module JsonText {
  import opened Common

  // ---------- numbers ----------

  predicate IsDigit(c: char) {
    '0' <= c <= '9'
  }

  function Digit(d: nat): (c: char)
    requires d < 10
    ensures IsDigit(c) && c as int - '0' as int == d
  {
    ('0' as int + d) as char
  }

  /** Decimal digits without leading zeros. */
  function Dec(n: nat): (s: string)
    ensures s != [] && forall i :: 0 <= i < |s| ==> IsDigit(s[i])
  {
    if n < 10 then [Digit(n)] else Dec(n / 10) + [Digit(n % 10)]
  }

  function IntText(n: int): string {
    if n < 0 then "-" + Dec(-n) else Dec(n)
  }

  /** The value of a string of digits. */
  function Value(s: string): nat
    requires forall i :: 0 <= i < |s| ==> IsDigit(s[i])
  {
    if s == [] then 0 else Value(s[..|s| - 1]) * 10 + DigitValue(s[|s| - 1])
  }

  function DigitValue(c: char): nat
    requires IsDigit(c)
  {
    c as int - '0' as int
  }

  lemma {:induction false} ValueOfDec(n: nat)
    ensures Value(Dec(n)) == n
  {
    if n >= 10 {
      ValueOfDec(n / 10);
      assert Dec(n)[..|Dec(n)| - 1] == Dec(n / 10);
    }
  }

  /** Different numbers print differently. */
  lemma DecInjective(m: nat, n: nat)
    requires Dec(m) == Dec(n)
    ensures m == n
  {
    ValueOfDec(m);
    ValueOfDec(n);
  }

  function Pow10(k: nat): nat {
    if k == 0 then 1 else 10 * Pow10(k - 1)
  }

  lemma {:induction false} DecLength(n: nat, k: nat)
    requires k > 0 && n < Pow10(k)
    ensures |Dec(n)| <= k
  {
    if n >= 10 { DecLength(n / 10, k - 1); }
  }

  // ---------- strings ----------

  function HexDigit(d: nat): (c: char)
    requires d < 16
    ensures c != '"' && c != '\n'
  {
    "0123456789abcdef"[d]
  }

  /** One character inside a JSON string (section 7 of RFC 8259). */
  function Escaped(c: char): string {
    if c == '"' then ['\\', '"']
    else if c == '\\' then ['\\', '\\']
    else if c == '\n' then ['\\', 'n']
    else if c == '\r' then ['\\', 'r']
    else if c == '\t' then ['\\', 't']
    else if c as int == 8 then ['\\', 'b']
    else if c as int == 12 then ['\\', 'f']
    else if c < ' ' then ['\\', 'u', '0', '0', HexDigit(c as int / 16), HexDigit(c as int % 16)]
    else [c]
  }

  function Escape(s: string): string {
    if s == [] then [] else Escaped(s[0]) + Escape(s[1..])
  }

  predicate QuoteFree(s: string) {
    forall i :: 0 <= i < |s| ==> s[i] != '"'
  }

  predicate NewlineFree(s: string) {
    forall i :: 0 <= i < |s| ==> s[i] != '\n'
  }

  /** Every quote is escaped. */
  predicate SafeBody(s: string) {
    forall i :: 0 <= i < |s| && s[i] == '"' ==> i > 0 && s[i - 1] == '\\'
  }

  lemma {:induction false} EscapeIsSafe(s: string)
    ensures SafeBody(Escape(s)) && NewlineFree(Escape(s))
  {
    if s != [] {
      EscapeIsSafe(s[1..]);
      var a, b := Escaped(s[0]), Escape(s[1..]);
      assert SafeBody(a) && NewlineFree(a);
      forall i | 0 <= i < |a + b| && (a + b)[i] == '"'
        ensures i > 0 && (a + b)[i - 1] == '\\'
      {
        if i >= |a| { assert b[i - |a|] == '"'; }
      }
    }
  }

  /** A quoted string whose body is already escaped. */
  function Quoted(body: string): string {
    "\"" + body + "\""
  }

  // ---------- objects ----------

  datatype Field = Field(name: string, value: string)

  function FieldText(f: Field): string {
    ",\"" + f.name + "\":" + f.value
  }

  function FieldsText(fs: seq<Field>): string {
    if fs == [] then [] else FieldsText(fs[..|fs| - 1]) + FieldText(fs[|fs| - 1])
  }

  /** The printed object. */
  function Object(fs: seq<Field>): string
    requires fs != []
  {
    assert |FieldsText(fs)| > 0;
    "{" + FieldsText(fs)[1..] + "}"
  }

  /** A value whose inner quotes are escaped: a number, or a quoted safe body. */
  predicate SafeValue(v: string) {
    v != [] && forall i :: 0 <= i < |v| && v[i] == '"' ==> i == 0 || i == |v| - 1 || v[i - 1] == '\\'
  }

  predicate SafeField(f: Field) {
    f.name != [] && QuoteFree(f.name) && SafeValue(f.value)
    && (forall i :: 0 <= i < |f.name| ==> f.name[i] != '\\' && f.name[i] != ',' && f.name[i] != ':')
  }

  lemma QuotedIsSafe(body: string)
    requires SafeBody(body)
    ensures SafeValue(Quoted(body))
  {
    var v := Quoted(body);
    forall i | 0 <= i < |v| && v[i] == '"'
      ensures i == 0 || i == |v| - 1 || v[i - 1] == '\\'
    {
      if 0 < i < |v| - 1 { assert body[i - 1] == '"'; }
    }
  }

  // ---------- where a field name can end ----------

  /** A character `c`, a quote and a colon start at `p`. */
  predicate Hit(s: string, p: nat, c: char) {
    p + 2 < |s| && s[p] == c && s[p + 1] == '"' && s[p + 2] == ':'
  }

  /** In a field's text that happens only at the end of its name. */
  lemma FieldHits(f: Field, p: nat, c: char)
    requires SafeField(f) && c != '\\' && c != ',' && c != ':' && c != '"'
    ensures Hit(FieldText(f), p, c) <==> p == 1 + |f.name| && f.name[|f.name| - 1] == c
  {
    var t := FieldText(f);
    assert forall q :: 2 <= q < 2 + |f.name| ==> t[q] == f.name[q - 2] && t[q] != '"';
    forall q | 4 + |f.name| < q < |t| - 1 && t[q] == '"'
      ensures t[q - 1] == '\\'
    {
      var i := q - (4 + |f.name|);
      assert f.value[i] == '"' && f.value[i - 1] == t[q - 1];
    }
  }

  /** Where field `k` starts. */
  function Offset(fs: seq<Field>, k: nat): nat
    requires k <= |fs|
  {
    |FieldsText(fs[..k])|
  }

  /** `p` is where the name of field `k` ends, with the character `c`. */
  predicate NameEnds(fs: seq<Field>, k: nat, p: nat, c: char) {
    k < |fs| && fs[k].name != [] && fs[k].name[|fs[k].name| - 1] == c && p == Offset(fs, k) + 1 + |fs[k].name|
  }

  ghost predicate HitsNames(fs: seq<Field>, p: nat, c: char) {
    exists k: nat :: NameEnds(fs, k, p, c)
  }

  /** Nothing of the kind spans the comma between two fields. */
  lemma HitSplits(a: string, b: string, p: nat, c: char)
    requires b != "" && b[0] == ',' && c != ',' && Hit(a + b, p, c)
    ensures if p < |a| then Hit(a, p, c) else Hit(b, p - |a|, c)
  {
    assert (a + b)[|a|] == ',';
  }

  lemma HitsNamesGrow(fs: seq<Field>, n: nat, p: nat, c: char)
    requires n <= |fs| && HitsNames(fs[..n], p, c)
    ensures HitsNames(fs, p, c)
  {
    var k: nat :| NameEnds(fs[..n], k, p, c);
    assert fs[..n][..k] == fs[..k];
    assert NameEnds(fs, k, p, c);
  }

  lemma {:induction false} FieldsHits(fs: seq<Field>, p: nat, c: char)
    requires forall k :: 0 <= k < |fs| ==> SafeField(fs[k])
    requires c != '\\' && c != ',' && c != ':' && c != '"'
    ensures Hit(FieldsText(fs), p, c) ==> HitsNames(fs, p, c)
  {
    if fs != [] && Hit(FieldsText(fs), p, c) {
      var n := |fs| - 1;
      var a, b := FieldsText(fs[..n]), FieldText(fs[n]);
      HitSplits(a, b, p, c);
      if p < |a| {
        FieldsHits(fs[..n], p, c);
        HitsNamesGrow(fs, n, p, c);
      } else {
        FieldHits(fs[n], p - |a|, c);
        assert NameEnds(fs, n, p, c);
      }
    }
  }

  // ---------- where a needle can occur ----------

  /** `t` occurs in `s` at `i`. */
  predicate OccursAt(s: string, i: nat, t: string) {
    i + |t| <= |s| && s[i..i + |t|] == t
  }

  /** A field's key as it is searched for. */
  function Key(name: string): string {
    "\"" + name + "\":"
  }

  /** The object's characters up to its closing brace are those of its fields, but for the first. */
  lemma ObjectChars(fs: seq<Field>, i: nat)
    requires fs != [] && i < |Object(fs)|
    ensures |Object(fs)| == |FieldsText(fs)| + 1
    ensures Object(fs)[i] == if i == 0 then '{' else if i < |FieldsText(fs)| then FieldsText(fs)[i] else '}'
  {
  }

  lemma OffsetNext(fs: seq<Field>, k: nat)
    requires k < |fs|
    ensures FieldsText(fs[..k + 1]) == FieldsText(fs[..k]) + FieldText(fs[k])
  {
    assert fs[..k + 1][..k] == fs[..k] && fs[..k + 1][k] == fs[k];
  }

  lemma {:induction false} FieldsPrefix(fs: seq<Field>, k: nat)
    requires k <= |fs|
    ensures FieldsText(fs[..k]) <= FieldsText(fs)
  {
    if k < |fs| {
      var n := |fs| - 1;
      FieldsPrefix(fs[..n], k);
      assert fs[..n][..k] == fs[..k];
    } else {
      assert fs[..k] == fs;
    }
  }

  lemma {:induction false} FieldPlace(fs: seq<Field>, k: nat)
    requires k < |fs|
    ensures Offset(fs, k) + |FieldText(fs[k])| <= |FieldsText(fs)|
    ensures FieldsText(fs)[Offset(fs, k)..Offset(fs, k) + |FieldText(fs[k])|] == FieldText(fs[k])
    ensures Offset(fs, k) + |FieldText(fs[k])| == Offset(fs, k + 1)
    ensures k + 1 < |fs| ==>
              Offset(fs, k + 1) < |FieldsText(fs)| && FieldsText(fs)[Offset(fs, k + 1)] == ','
  {
    OffsetNext(fs, k);
    FieldsPrefix(fs, k + 1);
    InPrefix(FieldsText(fs), FieldsText(fs[..k]), FieldText(fs[k]));
    if k + 1 < |fs| {
      OffsetNext(fs, k + 1);
      FieldsPrefix(fs, k + 2);
      InPrefix(FieldsText(fs), FieldsText(fs[..k + 1]), FieldText(fs[k + 1]));
    }
  }

  lemma InPrefix(s: string, a: string, b: string)
    requires a + b <= s && b != ""
    ensures |a| + |b| <= |s| && s[|a|..|a| + |b|] == b && s[|a|] == b[0]
  {
    assert s[|a|..|a| + |b|] == (a + b)[|a|..];
    assert s[|a|] == (a + b)[|a|];
  }

  /** The key of a field occurs in the printed object exactly at the fields of that name, whatever the
      string values contain. */
  lemma KeyOnlyAtField(fs: seq<Field>, name: string, i: nat) returns (k: nat)
    requires fs != [] && forall k :: 0 <= k < |fs| ==> SafeField(fs[k])
    requires SafeField(Field(name, "0"))
    requires OccursAt(Object(fs), i, Key(name))
    ensures k < |fs| && fs[k].name == name && i == Offset(fs, k) + 1
  {
    var s, t, key := Object(fs), FieldsText(fs), Key(name);
    var c, p := name[|name| - 1], i + |name|;
    assert |s| == |t| + 1 by { ObjectChars(fs, 0); }
    KeyChars(s, i, name);
    assert s[p] == c && s[p + 1] == '"' && s[p + 2] == ':';
    ObjectChars(fs, p); ObjectChars(fs, p + 1); ObjectChars(fs, p + 2);
    assert Hit(t, p, c);
    FieldsHits(fs, p, c);
    k :| NameEnds(fs, k, p, c);
    FieldPlace(fs, k);
    SameName(fs, k, name, i);
  }

  lemma SameName(fs: seq<Field>, k: nat, name: string, i: nat)
    requires k < |fs| && SafeField(fs[k])
    requires QuoteFree(name) && OccursAt(Object(fs), i, Key(name))
    requires i + |name| == Offset(fs, k) + 1 + |fs[k].name|
    ensures fs[k].name == name && i == Offset(fs, k) + 1
  {
    KeyChars(Object(fs), i, name);
    NameChars(fs, k);
    Aligned(Object(fs), i, Offset(fs, k) + 1, name, fs[k].name);
  }

  /** A field's text in the printed object, but for its leading comma or brace. */
  lemma FieldChars(fs: seq<Field>, k: nat, q: nat)
    requires k < |fs| && 0 < q < |FieldText(fs[k])|
    ensures Offset(fs, k) + q < |Object(fs)| - 1 && Object(fs)[Offset(fs, k) + q] == FieldText(fs[k])[q]
  {
    FieldPlace(fs, k);
    var o, n := Offset(fs, k), |FieldText(fs[k])|;
    ObjectChars(fs, o + q);
    assert FieldsText(fs)[o + q] == FieldsText(fs)[o..o + n][q];
  }

  lemma NameChars(fs: seq<Field>, k: nat)
    requires k < |fs|
    ensures var s, o, f := Object(fs), Offset(fs, k), fs[k];
            && o + 2 + |f.name| < |s| && s[o + 1] == '"'
            && forall q :: o + 2 <= q < o + 2 + |f.name| ==> s[q] == f.name[q - o - 2]
  {
    var s, f, o := Object(fs), fs[k], Offset(fs, k);
    FieldChars(fs, k, 1);
    FieldChars(fs, k, 2 + |f.name|);
    forall q | o + 2 <= q < o + 2 + |f.name|
      ensures s[q] == f.name[q - o - 2]
    {
      FieldChars(fs, k, q - o);
    }
  }

  /** Two quote-free names that end at the same place, each after a quote, are the same name. */
  lemma Aligned(s: string, i: nat, o: nat, x: string, y: string)
    requires QuoteFree(x) && QuoteFree(y) && i + |x| == o + |y| < |s| - 1
    requires s[i] == '"' && forall q :: i < q <= i + |x| ==> s[q] == x[q - i - 1]
    requires s[o] == '"' && forall q :: o < q <= o + |y| ==> s[q] == y[q - o - 1]
    ensures i == o && x == y
  {
    assert i == o;
    forall j | 0 <= j < |x|
      ensures x[j] == y[j]
    {
      assert s[o + 1 + j] == x[j];
    }
  }

  lemma KeyChars(s: string, i: nat, name: string)
    requires OccursAt(s, i, Key(name))
    ensures s[i] == '"' && s[i + 1 + |name|] == '"' && s[i + 2 + |name|] == ':'
    ensures forall q :: i < q <= i + |name| ==> s[q] == name[q - i - 1]
  {
    var key := Key(name);
    forall q | i <= q < i + |key|
      ensures s[q] == key[q - i]
    {
      assert s[q] == s[i..i + |key|][q - i];
    }
  }

  /** And it does occur there, followed by the field's value and then a comma or the closing brace. */
  lemma FieldInObject(fs: seq<Field>, k: nat)
    requires k < |fs|
    ensures var f, i := fs[k], Offset(fs, k) + 1;
            var e := i + |Key(f.name)| + |f.value|;
            && e < |Object(fs)|
            && Object(fs)[i..e] == Key(f.name) + f.value
            && Object(fs)[e] == if k + 1 < |fs| then ',' else '}'
  {
    var f, o := fs[k], Offset(fs, k);
    var i := o + 1;
    var e := i + |Key(f.name)| + |f.value|;
    FieldPlace(fs, k);
    ObjectChars(fs, 0);
    assert FieldText(f) == "," + (Key(f.name) + f.value);
    forall j | i <= j < e
      ensures Object(fs)[j] == (Key(f.name) + f.value)[j - i]
    {
      ObjectChars(fs, j);
      assert FieldsText(fs)[j] == FieldsText(fs)[o..o + |FieldText(f)|][j - o];
    }
    if k + 1 == |fs| { assert fs[..k + 1] == fs; }
    ObjectChars(fs, e);
  }
}
