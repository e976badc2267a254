/** The line that `dd_event_record` writes, and the textual tests by which the store later finds events. */
module EventText {
  import opened Common
  import opened JsonText

  datatype Source = BleAuto | ManualWeb | ManualBtn

  /** What is serialized. `worker` 0 means that no worker id is written; `note` "" that no note is. */
  datatype Event = Event(ts: nat, mono: nat, kind: Kind, source: Source, peer: Option<Addr>,
                         worker: nat, reason: int, note: string)

  function KindText(k: Kind): string {
    match k
    case In => "in"
    case Out => "out"
  }

  function SourceText(s: Source): string {
    match s
    case BleAuto => "ble_auto"
    case ManualWeb => "manual_web"
    case ManualBtn => "manual_btn"
  }

  function HexByte(b: Byte): string {
    [HexDigit(b as int / 16), HexDigit(b as int % 16)]
  }

  /** `dd_format_mac`. */
  function MacText(a: Addr): string {
    HexByte(a.b0) + ":" + HexByte(a.b1) + ":" + HexByte(a.b2) + ":"
    + HexByte(a.b3) + ":" + HexByte(a.b4) + ":" + HexByte(a.b5)
  }

  /** The fields in the order in which they are added. */
  function Fields(e: Event): (fs: seq<Field>)
    ensures |fs| >= 4
  {
    [Field("ts", Dec(e.ts)), Field("mono_us", Dec(e.mono)),
     Field("type", Quoted(KindText(e.kind))), Field("src", Quoted(SourceText(e.source)))]
    + (if e.peer.Some? then [Field("peer", Quoted(MacText(e.peer.value)))] else [])
    + (if e.worker != 0 then [Field("worker_id", Dec(e.worker))] else [])
    + (if e.kind.Out? then [Field("reason", IntText(e.reason))] else [])
    + (if e.note != "" then [Field("note", Quoted(Escape(e.note)))] else [])
  }

  /** The serialized event. */
  function Render(e: Event): string {
    Object(Fields(e))
  }

  // ---------- its fields are safe, and the numeric ones unique ----------

  lemma NumberIsSafe(v: string)
    requires v != [] && QuoteFree(v)
    ensures SafeValue(v)
  {
  }

  lemma PlainIsSafe(body: string)
    requires QuoteFree(body)
    ensures SafeValue(Quoted(body))
  {
    QuotedIsSafe(body);
  }

  predicate AllSafe(fs: seq<Field>) {
    forall k :: 0 <= k < |fs| ==> SafeField(fs[k])
  }

  lemma HeadSafe(e: Event)
    ensures AllSafe(Fields(e)[..4])
  {
    hide SafeValue, NewlineFree, Quoted;
    NumberIsSafe(Dec(e.ts));
    NumberIsSafe(Dec(e.mono));
    PlainIsSafe(KindText(e.kind));
    PlainIsSafe(SourceText(e.source));
  }

  lemma MacSafe(a: Addr)
    ensures SafeField(Field("peer", Quoted(MacText(a))))
  {
    PairsQuoteFree(HexByte(a.b0) + ":", HexByte(a.b1) + ":");
    var three := HexByte(a.b0) + ":" + HexByte(a.b1) + ":" + HexByte(a.b2) + ":";
    assert QuoteFree(three);
    assert QuoteFree(three + HexByte(a.b3) + ":");
    assert QuoteFree(three + HexByte(a.b3) + ":" + HexByte(a.b4) + ":");
    PlainIsSafe(MacText(a));
  }

  lemma PairsQuoteFree(s: string, t: string)
    requires QuoteFree(s) && QuoteFree(t)
    ensures QuoteFree(s + t)
  {
  }

  lemma NumbersSafe(e: Event)
    ensures SafeField(Field("worker_id", Dec(e.worker)))
    ensures SafeField(Field("reason", IntText(e.reason)))
  {
    NumberIsSafe(Dec(e.worker));
    NumberIsSafe(IntText(e.reason));
  }

  lemma NoteSafe(note: string)
    ensures SafeField(Field("note", Quoted(Escape(note))))
  {
    EscapeIsSafe(note);
    QuotedIsSafe(Escape(note));
  }

  lemma TailSafe(e: Event)
    ensures e.peer.Some? ==> SafeField(Field("peer", Quoted(MacText(e.peer.value))))
    ensures SafeField(Field("worker_id", Dec(e.worker)))
    ensures SafeField(Field("reason", IntText(e.reason)))
    ensures SafeField(Field("note", Quoted(Escape(e.note))))
  {
    if e.peer.Some? { MacSafe(e.peer.value); }
    NumbersSafe(e);
    NoteSafe(e.note);
  }

  lemma FieldsSafe(e: Event)
    ensures AllSafe(Fields(e))
  {
    HeadSafe(e);
    TailSafe(e);
    forall k | 0 <= k < |Fields(e)|
      ensures SafeField(Fields(e)[k])
    {
      if k < 4 { assert Fields(e)[k] == Fields(e)[..4][k]; }
    }
  }

  /** A numeric field's name tells its place and value. */
  lemma NamePlace(e: Event, k: nat)
    requires k < |Fields(e)|
    ensures Fields(e)[k].name == "ts" ==> k == 0 && Fields(e)[k].value == Dec(e.ts)
    ensures Fields(e)[k].name == "mono_us" ==> k == 1 && Fields(e)[k].value == Dec(e.mono)
    ensures Fields(e)[k].name == "worker_id" ==>
              e.worker != 0 && Fields(e)[k].value == Dec(e.worker) && k == if e.peer.Some? then 5 else 4
  {
    assert |"ts"| == 2 && |"mono_us"| == 7 && |"type"| == 4 && |"src"| == 3 && |"peer"| == 4
           && |"worker_id"| == 9 && |"reason"| == 6 && |"note"| == 4;
  }

  lemma WorkerField(e: Event)
    requires e.worker != 0
    ensures var k := if e.peer.Some? then 5 else 4;
            k < |Fields(e)| && Fields(e)[k] == Field("worker_id", Dec(e.worker))
  {
  }

  // ---------- strstr and the character after the match ----------

  /** `strstr`: the first occurrence of a nonempty needle, or `|s|`. */
  function FirstOccurrence(s: string, t: string, i: nat := 0): (m: nat)
    requires i <= |s| && t != ""
    ensures i <= m <= |s|
    ensures m < |s| ==> OccursAt(s, m, t)
    ensures forall j :: i <= j < m ==> !OccursAt(s, j, t)
    decreases |s| - i
  {
    if i == |s| || OccursAt(s, i, t) then i else FirstOccurrence(s, t, i + 1)
  }

  /** The first occurrence of the needle is directly followed by one of the terminators. */
  predicate Found(s: string, needle: string, terminators: string)
    requires needle != ""
  {
    var m := FirstOccurrence(s, needle);
    m + |needle| < |s| && s[m + |needle|] in terminators
  }

  /** `delete_by_worker`'s test of a line. */
  predicate MentionsWorker(line: string, worker: nat) {
    Found(line, Key("worker_id") + Dec(worker), ",} ")
  }

  /** `delete_one`'s test of a line. */
  predicate MentionsTimes(line: string, ts: int, mono: int) {
    Found(line, Key("ts") + IntText(ts), ",}") && Found(line, Key("mono_us") + IntText(mono), ",}")
  }

  predicate FreeOf(v: string, terminators: string) {
    forall i :: 0 <= i < |v| ==> v[i] !in terminators
  }

  /** Two values at the same place, each followed by a terminator and free of them, are the same. */
  lemma Delimited(s: string, i: nat, v: string, w: string, terminators: string)
    requires OccursAt(s, i, v) && OccursAt(s, i, w) && FreeOf(v, terminators) && FreeOf(w, terminators)
    requires i + |v| < |s| && i + |w| < |s|
    requires s[i + |v|] in terminators && s[i + |w|] in terminators
    ensures v == w
  {
    assert forall j :: i <= j < i + |v| ==> s[j] == s[i..i + |v|][j - i] == v[j - i];
    assert forall j :: i <= j < i + |w| ==> s[j] == s[i..i + |w|][j - i] == w[j - i];
  }

  lemma OccursSplit(s: string, i: nat, a: string, b: string)
    ensures OccursAt(s, i, a + b) <==> OccursAt(s, i, a) && OccursAt(s, i + |a|, b)
  {
    if i + |a + b| <= |s| {
      assert s[i..i + |a + b|] == s[i..i + |a|] + s[i + |a|..i + |a| + |b|];
      if s[i..i + |a + b|] == a + b {
        assert s[i..i + |a|] == (a + b)[..|a|] == a;
        assert s[i + |a|..i + |a| + |b|] == (a + b)[|a|..] == b;
      }
    }
  }

  /** An occurrence of a newline-free text in a terminated line lies within the line. */
  lemma OccursInLine(line: string, i: nat, t: string)
    requires NewlineFree(t) && t != ""
    ensures OccursAt(line + "\n", i, t) <==> OccursAt(line, i, t)
  {
    var s := line + "\n";
    if i + |t| <= |line| {
      assert s[i..i + |t|] == line[i..i + |t|];
    } else if i + |t| == |s| {
      assert s[i..i + |t|][|t| - 1] == '\n';
    }
  }

  /** The textual test for a numeric field is exact on printed objects. */
  lemma FoundExactly(fs: seq<Field>, name: string, v: string, terminators: string, k: nat)
    requires fs != [] && AllSafe(fs) && SafeField(Field(name, "0")) && NewlineFree(Key(name) + v)
    requires v != "" && FreeOf(v, terminators) && ',' in terminators && '}' in terminators
    requires forall j :: 0 <= j < |fs| && fs[j].name == name ==> j == k && FreeOf(fs[j].value, terminators)
    ensures Found(Object(fs) + "\n", Key(name) + v, terminators)
            <==> k < |fs| && fs[k] == Field(name, v)
  {
    if Found(Object(fs) + "\n", Key(name) + v, terminators) {
      FoundIsField(fs, name, v, terminators, k);
    }
    if k < |fs| && fs[k] == Field(name, v) {
      FieldIsFound(fs, name, v, terminators, k);
    }
  }

  /** In the terminated object a field's value follows its key, and a comma or brace follows the value. */
  lemma ValueFollows(fs: seq<Field>, j: nat)
    requires j < |fs|
    ensures var s, i, w := Object(fs) + "\n", Offset(fs, j) + 1 + |Key(fs[j].name)|, fs[j].value;
            OccursAt(s, i, w) && i + |w| < |s| && (s[i + |w|] == ',' || s[i + |w|] == '}')
  {
    FieldInObject(fs, j);
    var s, key, w, m := Object(fs) + "\n", Key(fs[j].name), fs[j].value, Offset(fs, j) + 1;
    var e := m + |key| + |w|;
    assert s[m..e] == Object(fs)[m..e] == key + w;
    assert s[m + |key|..e] == s[m..e][|key|..] == w;
  }

  lemma {:induction false} FoundIsField(fs: seq<Field>, name: string, v: string, terminators: string, k: nat)
    requires fs != [] && AllSafe(fs) && SafeField(Field(name, "0")) && NewlineFree(Key(name) + v)
    requires v != "" && FreeOf(v, terminators) && ',' in terminators && '}' in terminators
    requires forall j :: 0 <= j < |fs| && fs[j].name == name ==> j == k && FreeOf(fs[j].value, terminators)
    requires Found(Object(fs) + "\n", Key(name) + v, terminators)
    ensures k < |fs| && fs[k] == Field(name, v)
  {
    hide Object, NewlineFree;
    var s := Object(fs) + "\n";
    var m := FirstOccurrence(s, Key(name) + v);
    var j := AtField(fs, name, v, m);
    ValueFollows(fs, j);
    OccursSplit(s, m, Key(name), v);
    assert |Key(name) + v| == |Key(name)| + |v|;
    Delimited(s, m + |Key(name)|, v, fs[j].value, terminators);
  }

  lemma FieldIsFound(fs: seq<Field>, name: string, v: string, terminators: string, k: nat)
    requires AllSafe(fs) && SafeField(Field(name, "0")) && NewlineFree(Key(name) + v)
    requires ',' in terminators && '}' in terminators
    requires k < |fs| && fs[k] == Field(name, v)
    requires forall j :: 0 <= j < |fs| && fs[j].name == name ==> j == k
    ensures Found(Object(fs) + "\n", Key(name) + v, terminators)
  {
    FieldInObject(fs, k);
    var s, needle := Object(fs) + "\n", Key(name) + v;
    var i := Offset(fs, k) + 1;
    assert |needle| == |Key(name)| + |v|;
    assert s[i..i + |needle|] == Object(fs)[i..i + |needle|];
    assert OccursAt(s, i, needle);
    var m := FirstOccurrence(s, needle);
    var j := AtField(fs, name, v, m);
  }

  lemma AtField(fs: seq<Field>, name: string, v: string, m: nat) returns (j: nat)
    requires fs != [] && AllSafe(fs) && SafeField(Field(name, "0")) && NewlineFree(Key(name) + v)
    requires OccursAt(Object(fs) + "\n", m, Key(name) + v)
    ensures j < |fs| && fs[j].name == name && m == Offset(fs, j) + 1
  {
    OccursInLine(Object(fs), m, Key(name) + v);
    OccursSplit(Object(fs), m, Key(name), v);
    j := KeyOnlyAtField(fs, name, m);
  }

  // ---------- the deletes hit exactly the events they mean ----------

  lemma PlainName(name: string)
    requires name != [] && QuoteFree(name) && NewlineFree(name)
    requires forall i :: 0 <= i < |name| ==> name[i] != '\\' && name[i] != ',' && name[i] != ':'
    ensures SafeField(Field(name, "0")) && NewlineFree(Key(name))
  {
  }

  lemma PlainNames()
    ensures SafeField(Field("ts", "0")) && SafeField(Field("mono_us", "0")) && SafeField(Field("worker_id", "0"))
    ensures NewlineFree(Key("ts")) && NewlineFree(Key("mono_us")) && NewlineFree(Key("worker_id"))
  {
    hide SafeField, Key;
    PlainName("ts");
    PlainName("mono_us");
    PlainName("worker_id");
  }

  /** `delete_by_worker` drops a written line if and only if its worker id is the argument, whatever the note
      says. */
  lemma WorkerTestExact(e: Event, worker: nat)
    requires worker != 0
    ensures MentionsWorker(Render(e) + "\n", worker) <==> e.worker == worker
  {
    PlainNames();
    FieldsSafe(e);
    var fs, k := Fields(e), if e.peer.Some? then 5 else 4;
    forall j | 0 <= j < |fs| && fs[j].name == "worker_id"
      ensures j == k && FreeOf(fs[j].value, ",} ")
    {
      NamePlace(e, j);
    }
    FoundExactly(fs, "worker_id", Dec(worker), ",} ", k);
    if e.worker == worker { WorkerField(e); }
    if k < |fs| && fs[k] == Field("worker_id", Dec(worker)) {
      NamePlace(e, k);
      DecInjective(e.worker, worker);
    }
  }

  lemma TextOfNumber(n: nat, v: int)
    ensures Dec(n) == IntText(v) <==> n == v
  {
    if v < 0 {
      assert IntText(v)[0] == '-' && IsDigit(Dec(n)[0]);
    } else if Dec(n) == Dec(v) {
      DecInjective(n, v);
    }
  }

  lemma NumberTestExact(e: Event, k: nat, name: string, n: nat, v: int)
    requires k < 2 && Fields(e)[k] == Field(name, Dec(n)) && name == if k == 0 then "ts" else "mono_us"
    ensures Found(Render(e) + "\n", Key(name) + IntText(v), ",}") <==> n == v
  {
    PlainNames();
    FieldsSafe(e);
    forall j | 0 <= j < |Fields(e)| && Fields(e)[j].name == name
      ensures j == k && FreeOf(Fields(e)[j].value, ",}")
    {
      NamePlace(e, j);
    }
    FoundExactly(Fields(e), name, IntText(v), ",}", k);
    TextOfNumber(n, v);
  }

  /** cJSON prints both times with all their digits. */
  predicate PlainTimes(e: Event) {
    e.ts < Pow10(15) && e.mono < Pow10(15)
  }

  /** `delete_one` drops a written line if and only if both times are equal, whatever the note says. */
  lemma TimesTestExact(e: Event, ts: int, mono: int)
    requires PlainTimes(e)
    ensures MentionsTimes(Render(e) + "\n", ts, mono) <==> e.ts == ts && e.mono == mono
  {
    NumberTestExact(e, 0, "ts", e.ts, ts);
    NumberTestExact(e, 1, "mono_us", e.mono, mono);
  }
}
