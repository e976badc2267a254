/** What the readers of the log see of the lines that were written. */
module ReadBack {
  import opened Common
  import opened EventLines
  import opened JsonText
  import opened EventText
  import opened EventReader
  import ES = EventStore
  import StoreText
  import Lifetimes
  import D = Debounce

  // ---------- one event ----------

  /** Everything an event says, under the names the readers know. */
  function Says(e: Event): (ms: seq<Member>)
    ensures |ms| >= 4
  {
    [Member("ts", Num(e.ts)), Member("mono_us", Num(e.mono)),
     Member("type", Str(match e.kind case In => "in" case Out => "out")),
     Member("src", Str(match e.source case BleAuto => "ble_auto" case ManualWeb => "manual_web"
                       case ManualBtn => "manual_btn"))]
    + (if e.peer.Some? then [Member("peer", Str(MacText(e.peer.value)))] else [])
    + (if e.worker != 0 then [Member("worker_id", Num(e.worker))] else [])
    + (if e.kind.Out? then [Member("reason", Num(e.reason))] else [])
    + (if e.note != "" then [Member("note", Str(e.note))] else [])
  }

  /** A string that is printed as it is. */
  predicate Unescaped(s: string) {
    forall i :: 0 <= i < |s| ==> s[i] != '"' && s[i] != '\\' && s[i] >= ' '
  }

  lemma {:induction false} EscapeOfPlain(s: string)
    requires Unescaped(s)
    ensures Escape(s) == s
  {
    if s != [] {
      EscapeOfPlain(s[1..]);
      assert Escaped(s[0]) == [s[0]];
      assert [s[0]] + s[1..] == s;
    }
  }

  lemma NamesPlain()
    ensures Escape("ts") == "ts" && Escape("mono_us") == "mono_us" && Escape("type") == "type"
    ensures Escape("src") == "src" && Escape("peer") == "peer" && Escape("worker_id") == "worker_id"
    ensures Escape("reason") == "reason" && Escape("note") == "note"
  {
    hide Escape;
    EscapeOfPlain("ts");
    EscapeOfPlain("mono_us");
    EscapeOfPlain("type");
    EscapeOfPlain("src");
    EscapeOfPlain("peer");
    EscapeOfPlain("worker_id");
    EscapeOfPlain("reason");
    EscapeOfPlain("note");
  }

  lemma TextsPlain(e: Event)
    ensures Escape(KindText(e.kind)) == KindText(e.kind) && Escape(SourceText(e.source)) == SourceText(e.source)
    ensures e.peer.Some? ==> Escape(MacText(e.peer.value)) == MacText(e.peer.value)
  {
    hide Escape, MacText;
    EscapeOfPlain(KindText(e.kind));
    EscapeOfPlain(SourceText(e.source));
    if e.peer.Some? {
      MacPlain(e.peer.value);
      EscapeOfPlain(MacText(e.peer.value));
    }
  }

  predicate PlainHex(c: char) {
    '0' <= c <= '9' || 'a' <= c <= 'f'
  }

  lemma HexIsPlain(d: nat)
    requires d < 16
    ensures PlainHex(HexDigit(d)) && HexOf(HexDigit(d)) == Some(d)
  {
  }

  lemma ByteChars(b: Byte)
    ensures var t := HexByte(b); |t| == 2 && PlainHex(t[0]) && PlainHex(t[1]) && ReadByte(t) == Some(b)
  {
    HexIsPlain(b as int / 16);
    HexIsPlain(b as int % 16);
  }

  /** Where the bytes of a printed address stand. */
  lemma Joined(a: string, b: string, c: string, d: string, e: string, f: string)
    requires |a| == |b| == |c| == |d| == |e| == |f| == 2
    ensures var s := a + ":" + b + ":" + c + ":" + d + ":" + e + ":" + f;
            |s| == 17 && s[2] == s[5] == s[8] == s[11] == s[14] == ':'
            && s[0..2] == a && s[3..5] == b && s[6..8] == c && s[9..11] == d && s[12..14] == e && s[15..17] == f
  {
  }

  lemma MacParts(a: Addr)
    ensures var s := MacText(a);
            |s| == 17 && s[2] == s[5] == s[8] == s[11] == s[14] == ':'
            && s[0..2] == HexByte(a.b0) && s[3..5] == HexByte(a.b1) && s[6..8] == HexByte(a.b2)
            && s[9..11] == HexByte(a.b3) && s[12..14] == HexByte(a.b4) && s[15..17] == HexByte(a.b5)
  {
    Joined(HexByte(a.b0), HexByte(a.b1), HexByte(a.b2), HexByte(a.b3), HexByte(a.b4), HexByte(a.b5));
  }

  lemma PlainJoin(s: string, b: Byte)
    requires Unescaped(s)
    ensures Unescaped(s + ":" + HexByte(b))
  {
    ByteChars(b);
  }

  lemma MacPlain(a: Addr)
    ensures Unescaped(MacText(a))
  {
    hide Unescaped, HexByte;
    assert Unescaped(HexByte(a.b0)) by { BytePlain(a.b0); }
    var s := HexByte(a.b0);
    PlainJoin(s, a.b1);
    s := s + ":" + HexByte(a.b1);
    PlainJoin(s, a.b2);
    s := s + ":" + HexByte(a.b2);
    PlainJoin(s, a.b3);
    s := s + ":" + HexByte(a.b3);
    PlainJoin(s, a.b4);
    s := s + ":" + HexByte(a.b4);
    PlainJoin(s, a.b5);
  }

  lemma BytePlain(b: Byte)
    ensures Unescaped(HexByte(b))
  {
    ByteChars(b);
  }

  /** An address is read back. */
  lemma MacBack(a: Addr)
    ensures ReadMac(MacText(a)) == Some(a)
  {
    hide MacText, HexByte, ReadByte;
    MacParts(a);
    ByteChars(a.b0);
    ByteChars(a.b1);
    ByteChars(a.b2);
    ByteChars(a.b3);
    ByteChars(a.b4);
    ByteChars(a.b5);
    var s := MacText(a);
    var b := seq(6, i requires 0 <= i < 6 => ReadByte(s[3 * i..3 * i + 2]));
    assert b[0] == Some(a.b0) && b[1] == Some(a.b1) && b[2] == Some(a.b2);
    assert b[3] == Some(a.b3) && b[4] == Some(a.b4) && b[5] == Some(a.b5);
  }

  predicate AllPrint(fs: seq<Field>, ms: seq<Member>) {
    |fs| == |ms| && forall i :: 0 <= i < |fs| ==> Prints(fs[i], ms[i])
  }

  lemma PrintJoin(fs: seq<Field>, ms: seq<Member>, gs: seq<Field>, ns: seq<Member>)
    requires AllPrint(fs, ms) && AllPrint(gs, ns)
    ensures AllPrint(fs + gs, ms + ns)
  {
  }

  lemma HeadPrints(e: Event)
    ensures AllPrint([Field("ts", Dec(e.ts)), Field("mono_us", Dec(e.mono)),
                      Field("type", Quoted(KindText(e.kind))), Field("src", Quoted(SourceText(e.source)))],
                     [Member("ts", Num(e.ts)), Member("mono_us", Num(e.mono)),
                      Member("type", Str(match e.kind case In => "in" case Out => "out")),
                      Member("src", Str(match e.source case BleAuto => "ble_auto" case ManualWeb => "manual_web"
                                        case ManualBtn => "manual_btn"))])
  {
    hide Escape, MacText;
    NamesPlain();
    TextsPlain(e);
  }

  lemma PeerPrints(e: Event)
    ensures AllPrint(if e.peer.Some? then [Field("peer", Quoted(MacText(e.peer.value)))] else [],
                     if e.peer.Some? then [Member("peer", Str(MacText(e.peer.value)))] else [])
    ensures AllPrint(if e.worker != 0 then [Field("worker_id", Dec(e.worker))] else [],
                     if e.worker != 0 then [Member("worker_id", Num(e.worker))] else [])
  {
    hide Escape, MacText;
    NamesPlain();
    TextsPlain(e);
  }

  lemma TailPrints(e: Event)
    ensures AllPrint(if e.kind.Out? then [Field("reason", IntText(e.reason))] else [],
                     if e.kind.Out? then [Member("reason", Num(e.reason))] else [])
    ensures AllPrint(if e.note != "" then [Field("note", Quoted(Escape(e.note)))] else [],
                     if e.note != "" then [Member("note", Str(e.note))] else [])
  {
    hide Escape;
    NamesPlain();
  }

  lemma FivePrint(a: seq<Field>, b: seq<Field>, c: seq<Field>, d: seq<Field>, e: seq<Field>,
                  v: seq<Member>, w: seq<Member>, x: seq<Member>, y: seq<Member>, z: seq<Member>)
    requires AllPrint(a, v) && AllPrint(b, w) && AllPrint(c, x) && AllPrint(d, y) && AllPrint(e, z)
    ensures AllPrint(a + b + c + d + e, v + w + x + y + z)
  {
    hide AllPrint;
    PrintJoin(a, v, b, w);
    PrintJoin(a + b, v + w, c, x);
    PrintJoin(a + b + c, v + w + x, d, y);
    PrintJoin(a + b + c + d, v + w + x + y, e, z);
  }

  lemma AllFieldsPrint(e: Event)
    ensures AllPrint(Fields(e), Says(e))
  {
    hide AllPrint, Escape, MacText, Dec, IntText, Quoted, KindText, SourceText;
    HeadPrints(e);
    PeerPrints(e);
    TailPrints(e);
    FivePrint([Field("ts", Dec(e.ts)), Field("mono_us", Dec(e.mono)),
               Field("type", Quoted(KindText(e.kind))), Field("src", Quoted(SourceText(e.source)))],
              if e.peer.Some? then [Field("peer", Quoted(MacText(e.peer.value)))] else [],
              if e.worker != 0 then [Field("worker_id", Dec(e.worker))] else [],
              if e.kind.Out? then [Field("reason", IntText(e.reason))] else [],
              if e.note != "" then [Field("note", Quoted(Escape(e.note)))] else [],
              [Member("ts", Num(e.ts)), Member("mono_us", Num(e.mono)),
               Member("type", Str(match e.kind case In => "in" case Out => "out")),
               Member("src", Str(match e.source case BleAuto => "ble_auto" case ManualWeb => "manual_web"
                                 case ManualBtn => "manual_btn"))],
              if e.peer.Some? then [Member("peer", Str(MacText(e.peer.value)))] else [],
              if e.worker != 0 then [Member("worker_id", Num(e.worker))] else [],
              if e.kind.Out? then [Member("reason", Num(e.reason))] else [],
              if e.note != "" then [Member("note", Str(e.note))] else []);
  }

  /** A written event is read back member by member, its note included. */
  lemma EventBack(e: Event)
    ensures ReadObject(Render(e)) == Some(Says(e))
  {
    hide Fields, Says, Prints, Object, ReadObject;
    AllFieldsPrint(e);
    ObjectBack(Fields(e), Says(e));
  }

  /** What the readers should see of an event: what was recorded, with its source by name and no worker id if it
      is 0. */
  function Shown(e: Event): Line {
    Line(Some(e.kind), Some(e.ts), Some(e.mono), if e.worker == 0 then None else Some(e.worker), e.peer,
         Some(match e.source case BleAuto => "ble_auto" case ManualWeb => "manual_web" case ManualBtn => "manual_btn"))
  }

  /** They do see that in the written line. */
  lemma LineBack(e: Event)
    ensures ReadLine(Render(e)) == Some(Shown(e))
  {
    hide ReadObject, Render;
    EventBack(e);
    ItemsOf(e);
    if e.peer.Some? { MacBack(e.peer.value); }
  }

  /** Which items a written event has. */
  lemma ItemsOf(e: Event)
    ensures var ms := Says(e);
            && Item(ms, "ts") == Some(Num(e.ts)) && Item(ms, "mono_us") == Some(Num(e.mono))
            && Item(ms, "type") == Some(Str(match e.kind case In => "in" case Out => "out"))
            && Item(ms, "src") == Some(Str(match e.source case BleAuto => "ble_auto" case ManualWeb => "manual_web"
                                           case ManualBtn => "manual_btn"))
            && Item(ms, "peer") == (if e.peer.Some? then Some(Str(MacText(e.peer.value))) else None)
            && Item(ms, "worker_id") == (if e.worker != 0 then Some(Num(e.worker)) else None)
  {
    hide Item, MacText;
    var ms := Says(e);
    NamesDiffer();
    FirstItem(ms, "ts", 0);
    FirstItem(ms, "mono_us", 1);
    FirstItem(ms, "type", 2);
    FirstItem(ms, "src", 3);
    PeerAndWorker(e);
  }

  lemma PeerAndWorker(e: Event)
    ensures Item(Says(e), "peer") == (if e.peer.Some? then Some(Str(MacText(e.peer.value))) else None)
    ensures Item(Says(e), "worker_id") == (if e.worker != 0 then Some(Num(e.worker)) else None)
  {
    hide Item, MacText;
    var ms := Says(e);
    NamesDiffer();
    FirstItem(ms, "peer", if e.peer.Some? then 4 else |ms|);
    FirstItem(ms, "worker_id", if e.worker == 0 then |ms| else if e.peer.Some? then 5 else 4);
  }

  lemma NamesDiffer()
    ensures var names := ["ts", "mono_us", "type", "src", "peer", "worker_id", "reason", "note"];
            forall i, j :: 0 <= i < j < |names| ==> names[i] != names[j]
  {
    assert |"ts"| == 2 && |"mono_us"| == 7 && |"type"| == 4 && |"src"| == 3 && |"peer"| == 4
           && |"worker_id"| == 9 && |"reason"| == 6 && |"note"| == 4;
    assert "type"[0] == 't' && "peer"[0] == 'p' && "note"[0] == 'n';
  }

  lemma {:induction false} FirstItem(ms: seq<Member>, name: string, k: nat)
    requires k <= |ms| && (k < |ms| ==> ms[k].name == name)
    requires forall i :: 0 <= i < k ==> ms[i].name != name
    ensures Item(ms, name) == if k < |ms| then Some(ms[k].value) else None
  {
    if ms != [] && k > 0 {
      assert forall i :: 0 <= i < k - 1 ==> ms[1..][i] == ms[i + 1];
      FirstItem(ms[1..], name, k - 1);
    }
  }

  /** The line that the life of the log is told with is what the readers make of the written BLE event, whatever
      its reason and note. */
  lemma LineOfBack(c: D.Call, ts: nat, worker: nat, reason: int, note: string)
    requires c.at >= 0
    ensures ReadLine(Render(Event(ts, c.at, c.kind, BleAuto, Some(c.peer), worker, reason, note)))
            == Some(Lifetimes.LineOf(c, ts, worker))
  {
    LineBack(Event(ts, c.at, c.kind, BleAuto, Some(c.peer), worker, reason, note));
  }

  // ---------- the whole file ----------

  /** After any run of the store the readers see, line by line, the events that the file stands for. */
  lemma StoreBack(ops: seq<ES.Op>, i: nat)
    requires ES.LegalRun(ops) && i < |ES.RunLog(ops)|
    ensures var lines := StoreText.Iterated(ES.Text(ES.RunBytes(ops)));
            |lines| == |ES.RunLog(ops)| && ReadLine(lines[i]) == Some(Shown(ES.RunLog(ops)[i]))
  {
    ES.RunRefines(ops);
    ES.TextAt(ES.RunLog(ops), i);
    LineBack(ES.RunLog(ops)[i]);
  }
}
