/** The event store as a file of characters and a cached count, and the list of events it stands for. */
module EventStore {
  import opened Common
  import opened JsonText
  import opened EventText
  import opened StoreText
  import opened TimeRotation

  const MAX_BYTES := 512 * 1024

  /** `file` is `None` when there is no file. */
  datatype Store = Store(file: Option<string>, count: nat)

  function Text(st: Store): string {
    if st.file.Some? then st.file.value else ""
  }

  // ---------- the operations on the bytes ----------

  /** `s_event_count = scan_event_count()`. */
  function Recounted(st: Store): Store {
    st.(count := Newlines(Text(st)))
  }

  /** The size check at the start of an append. `renamed` tells whether the copy replaced the file. */
  function MadeRoom(st: Store, renamed: bool): Store {
    if |Text(st)| <= MAX_BYTES then st
    else Recounted(if renamed then st.(file := Some(Rotated(Text(st)))) else st)
  }

  predicate Accepted(line: string) {
    0 < |line| <= LINE_MAX
  }

  function Append(st: Store, line: string, renamed: bool): Store {
    if !Accepted(line) then st
    else
      var r := MadeRoom(st, renamed);
      Store(Some(Text(r) + line + "\n"), r.count + 1)
  }

  /** Both deletes: copy the chunks that `drop` does not select. */
  function Delete(st: Store, drop: string -> bool, renamed: bool): Store {
    var chunks := Chunks(Text(st), DELETE_BUF);
    var kept := KeptCount(chunks, drop);
    if kept == |chunks| then st
    else if kept == 0 then Store(None, 0)
    else if renamed then Store(Some(Kept(chunks, drop)), kept)
    else st
  }

  function DeleteByWorker(st: Store, worker: nat, renamed: bool): Store {
    if worker == 0 then st else Delete(st, (chunk: string) => MentionsWorker(chunk, worker), renamed)
  }

  function DeleteOne(st: Store, ts: int, mono: int, renamed: bool): Store {
    Delete(st, (chunk: string) => MentionsTimes(chunk, ts, mono), renamed)
  }

  function RotateByTime(st: Store, cutoff: int, renamed: bool): Store {
    if cutoff <= 0 || st.file.None? then st
    else
      var r := KeepOffset(Text(st), cutoff);
      if r.None? then Store(None, 0)
      else if r.value == 0 || !renamed then st
      else Recounted(st.(file := Some(Text(st)[r.value..])))
  }

  datatype Op =
    | DoAppend(e: Event, renamed: bool)
    | DoDeleteByWorker(worker: nat, renamed: bool)
    | DoDeleteOne(ts: int, mono: int, renamed: bool)
    | DoRotateByTime(cutoff: int, renamed: bool)
    | DoWipe
    | DoBoot

  function Apply(st: Store, op: Op): Store {
    match op
    case DoAppend(e, renamed) => Append(st, Render(e), renamed)
    case DoDeleteByWorker(worker, renamed) => DeleteByWorker(st, worker, renamed)
    case DoDeleteOne(ts, mono, renamed) => DeleteOne(st, ts, mono, renamed)
    case DoRotateByTime(cutoff, renamed) => RotateByTime(st, cutoff, renamed)
    case DoWipe => Store(None, 0)
    case DoBoot => Recounted(st)
  }

  // ---------- the same operations on a list of events ----------

  function Texts(es: seq<Event>): (lines: seq<string>)
    ensures |lines| == |es|
  {
    if es == [] then [] else [Render(es[0])] + Texts(es[1..])
  }

  function Without(es: seq<Event>, gone: Event -> bool): seq<Event> {
    if es == [] then [] else (if gone(es[0]) then [] else [es[0]]) + Without(es[1..], gone)
  }

  function Times(es: seq<Event>): (times: seq<int>)
    ensures |times| == |es|
  {
    if es == [] then [] else [es[0].ts as int] + Times(es[1..])
  }

  function Trimmed(es: seq<Event>): seq<Event> {
    var size := |Join(Texts(es))|;
    if size <= MAX_BYTES then es else es[FirstBehind(Texts(es), size - size / 2)..]
  }

  /** A change that needs a rename only when something is left. */
  function Replaced(es: seq<Event>, left: seq<Event>, renamed: bool): seq<Event> {
    if renamed || left == [] then left else es
  }

  function LogStep(es: seq<Event>, op: Op): seq<Event> {
    match op
    case DoAppend(e, renamed) =>
      if Accepted(Render(e)) then (if renamed then Trimmed(es) else es) + [e] else es
    case DoDeleteByWorker(worker, renamed) =>
      Replaced(es, if worker == 0 then es else Without(es, (e: Event) => e.worker == worker), renamed)
    case DoDeleteOne(ts, mono, renamed) =>
      Replaced(es, Without(es, (e: Event) => e.ts == ts && e.mono == mono), renamed)
    case DoRotateByTime(cutoff, renamed) =>
      Replaced(es, if cutoff <= 0 then es else es[OldPrefix(Times(es), cutoff)..], renamed)
    case DoWipe => []
    case DoBoot => es
  }

  // ---------- events that print to good lines ----------

  lemma {:induction false} FieldsNewlineFree(fs: seq<Field>)
    requires forall k :: 0 <= k < |fs| ==> OneLine(fs[k])
    ensures NewlineFree(FieldsText(fs))
  {
    if fs != [] {
      FieldsNewlineFree(fs[..|fs| - 1]);
      assert NewlineFree(FieldText(fs[|fs| - 1]));
    }
  }

  lemma MacNewlineFree(a: Addr)
    ensures NewlineFree(MacText(a))
  {
    var s := HexByte(a.b0) + ":" + HexByte(a.b1) + ":" + HexByte(a.b2) + ":";
    var t := HexByte(a.b3) + ":" + HexByte(a.b4) + ":" + HexByte(a.b5);
    assert NewlineFree(s) && NewlineFree(t);
    assert MacText(a) == s + t;
  }

  predicate OneLine(f: Field) {
    NewlineFree(f.name) && NewlineFree(f.value)
  }

  lemma HeadOneLine(e: Event)
    ensures forall k :: 0 <= k < 4 ==> OneLine(Fields(e)[..4][k])
  {
  }

  lemma TailOneLine(e: Event)
    ensures e.peer.Some? ==> OneLine(Field("peer", Quoted(MacText(e.peer.value))))
    ensures OneLine(Field("worker_id", Dec(e.worker))) && OneLine(Field("reason", IntText(e.reason)))
    ensures OneLine(Field("note", Quoted(Escape(e.note))))
  {
    if e.peer.Some? {
      MacNewlineFree(e.peer.value);
    }
    var n := if e.reason < 0 then -e.reason else e.reason;
    EscapeIsSafe(e.note);
  }

  /** A written event is one line, even if its note holds newlines. */
  lemma RenderNewlineFree(e: Event)
    ensures NewlineFree(Render(e)) && Render(e) != ""
  {
    var fs := Fields(e);
    HeadOneLine(e);
    TailOneLine(e);
    forall k | 0 <= k < |fs|
      ensures OneLine(fs[k])
    {
      if k < 4 { assert fs[k] == fs[..4][k]; }
    }
    FieldsNewlineFree(fs);
    assert Render(e) == "{" + FieldsText(fs)[1..] + "}";
  }

  /** The events that are accepted, with times that cJSON prints digit by digit. */
  predicate Fits(e: Event) {
    |Render(e)| <= LINE_MAX && PlainTimes(e)
  }

  predicate AllFit(es: seq<Event>) {
    forall i :: 0 <= i < |es| ==> Fits(es[i])
  }

  /** The logs on which the deletes work line by line. */
  predicate AllShort(es: seq<Event>) {
    forall i :: 0 <= i < |es| ==> |Render(es[i])| <= DELETE_BUF - 2
  }

  // ---------- the bytes refine the list ----------

  /** The file holds exactly these events, one a line, and the cached count is their number. */
  predicate Represents(st: Store, es: seq<Event>) {
    Text(st) == Join(Texts(es)) && st.count == |es| && AllFit(es)
  }

  lemma {:induction false} TextAt(es: seq<Event>, i: nat)
    requires i < |es|
    ensures Texts(es)[i] == Render(es[i])
  {
    if i > 0 { TextAt(es[1..], i - 1); }
  }

  lemma {:induction false} TextsDrop(es: seq<Event>, k: nat)
    requires k <= |es|
    ensures Texts(es[k..]) == Texts(es)[k..]
  {
    if k == 0 {
      assert es[0..] == es;
    } else {
      TextsDrop(es[1..], k - 1);
      assert es[1..][k - 1..] == es[k..];
    }
  }

  lemma {:induction false} TextsPush(es: seq<Event>, e: Event)
    ensures Texts(es + [e]) == Texts(es) + [Render(e)]
  {
    if es == [] {
      assert es + [e] == [e];
    } else {
      TextsPush(es[1..], e);
      assert (es + [e])[0] == es[0] && (es + [e])[1..] == es[1..] + [e];
    }
  }

  lemma JoinOne(l: string)
    ensures Join([l]) == l + "\n"
  {
    JoinStep(l, []);
    assert [l] + [] == [l];
  }

  lemma TextsGood(es: seq<Event>)
    requires AllFit(es)
    ensures AllGood(Texts(es)) && AllNewlineFree(Texts(es)) && AllDated(Texts(es), Times(es))
  {
    forall i | 0 <= i < |es|
      ensures GoodLine(Texts(es)[i]) && Dated(Texts(es)[i], Times(es)[i])
    {
      TextAt(es, i);
      TimeAt(es, i);
      RenderNewlineFree(es[i]);
      EventDated(es[i]);
    }
  }

  lemma {:induction false} TimeAt(es: seq<Event>, i: nat)
    requires i < |es|
    ensures Times(es)[i] == es[i].ts
  {
    if i > 0 { TimeAt(es[1..], i - 1); }
  }

  // ---------- append ----------

  lemma RecountRefines(st: Store, es: seq<Event>)
    requires Text(st) == Join(Texts(es)) && AllFit(es)
    ensures Represents(Recounted(st), es)
  {
    TextsGood(es);
    NewlinesOfJoin(Texts(es));
  }

  lemma {:induction false} RotatedText(es: seq<Event>)
    requires AllGood(Texts(es)) && |Join(Texts(es))| > MAX_BYTES
    ensures Rotated(Join(Texts(es))) == Join(Texts(Trimmed(es)))
  {
    hide Texts, Join, FirstBehind;
    var size := |Join(Texts(es))|;
    RotatedLines(Texts(es));
    TextsDrop(es, FirstBehind(Texts(es), size - size / 2));
  }

  lemma RoomRefines(st: Store, es: seq<Event>, renamed: bool)
    requires Represents(st, es)
    ensures Represents(MadeRoom(st, renamed), if renamed then Trimmed(es) else es)
  {
    if |Text(st)| > MAX_BYTES {
      if renamed {
        TextsGood(es);
        RotatedText(es);
        RecountRefines(st.(file := Some(Rotated(Text(st)))), Trimmed(es));
      } else {
        RecountRefines(st, es);
      }
    }
  }

  lemma PushRefines(st: Store, es: seq<Event>, e: Event)
    requires Represents(st, es) && Fits(e)
    ensures Represents(Store(Some(Text(st) + Render(e) + "\n"), st.count + 1), es + [e])
  {
    hide Texts, Join, Render;
    TextsPush(es, e);
    JoinConcat(Texts(es), [Render(e)]);
    JoinOne(Render(e));
    assert Text(st) + Render(e) + "\n" == Text(st) + (Render(e) + "\n");
  }

  lemma AppendRefines(st: Store, es: seq<Event>, e: Event, renamed: bool)
    requires Represents(st, es) && Fits(e) && Accepted(Render(e))
    ensures Represents(Append(st, Render(e), renamed), LogStep(es, DoAppend(e, renamed)))
  {
    RoomRefines(st, es, renamed);
    PushRefines(MadeRoom(st, renamed), if renamed then Trimmed(es) else es, e);
  }

  // ---------- deletes ----------

  lemma {:induction false} SelectWithout(es: seq<Event>, drop: string -> bool, gone: Event -> bool)
    requires forall i :: 0 <= i < |es| ==> (drop(Render(es[i]) + "\n") <==> gone(es[i]))
    ensures Select(Texts(es), drop) == Texts(Without(es, gone))
  {
    if es != [] {
      SelectWithout(es[1..], drop, gone);
      assert Texts(es)[1..] == Texts(es[1..]) && Texts(es)[0] == Render(es[0]);
      var rest := Without(es[1..], gone);
      if gone(es[0]) {
        assert [] + rest == rest;
      } else {
        assert ([es[0]] + rest)[1..] == rest;
      }
    }
  }

  lemma {:induction false} WithoutSome(es: seq<Event>, gone: Event -> bool)
    ensures |Without(es, gone)| <= |es| && (|Without(es, gone)| == |es| ==> Without(es, gone) == es)
    ensures forall e :: e in Without(es, gone) ==> e in es
  {
    if es != [] {
      WithoutSome(es[1..], gone);
      assert es == [es[0]] + es[1..];
    }
  }

  lemma WithoutFits(es: seq<Event>, gone: Event -> bool)
    requires AllFit(es)
    ensures AllFit(Without(es, gone))
  {
    WithoutSome(es, gone);
    forall i | 0 <= i < |Without(es, gone)|
      ensures Fits(Without(es, gone)[i])
    {
      var e := Without(es, gone)[i];
      assert e in es;
    }
  }

  lemma TextsShort(es: seq<Event>)
    requires AllShort(es)
    ensures forall i :: 0 <= i < |es| ==> NewlineFree(Texts(es)[i]) && |Texts(es)[i]| <= DELETE_BUF - 2
  {
    forall i | 0 <= i < |es|
      ensures NewlineFree(Texts(es)[i]) && |Texts(es)[i]| <= DELETE_BUF - 2
    {
      TextAt(es, i);
      RenderNewlineFree(es[i]);
    }
  }

  lemma {:induction false} DeleteRefines(st: Store, es: seq<Event>, drop: string -> bool, gone: Event -> bool,
                                         renamed: bool)
    requires Represents(st, es) && AllShort(es)
    requires forall i :: 0 <= i < |es| ==> (drop(Render(es[i]) + "\n") <==> gone(es[i]))
    ensures Represents(Delete(st, drop, renamed), Replaced(es, Without(es, gone), renamed))
  {
    TextsShort(es);
    DeletesLines(Texts(es), drop);
    SelectWithout(es, drop, gone);
    WithoutSome(es, gone);
    WithoutFits(es, gone);
  }

  // ---------- time rotation ----------

  lemma SuffixRefines(st: Store, es: seq<Event>, k: nat)
    requires Represents(st, es) && k <= |es| && st.file.Some?
    ensures |Join(Texts(es)[..k])| <= |Text(st)|
    ensures Represents(Recounted(st.(file := Some(Text(st)[|Join(Texts(es)[..k])|..]))), es[k..])
  {
    TextsGood(es);
    JoinSplit(Texts(es), k);
    TextsDrop(es, k);
    NewlinesOfJoin(Texts(es)[k..]);
  }

  lemma PrefixEmpty(lines: seq<string>, k: nat)
    requires k <= |lines|
    ensures |Join(lines[..k])| == 0 <==> k == 0
  {
    if k == 0 {
      assert lines[..0] == [];
    } else {
      assert lines[..k][0] == lines[0];
    }
  }

  lemma OffsetKnown(st: Store, es: seq<Event>, cutoff: int)
    requires Represents(st, es) && cutoff > 0
    ensures var k := OldPrefix(Times(es), cutoff);
            KeepOffset(Text(st), cutoff) == if k < |es| then Some(|Join(Texts(es)[..k])|) else None
  {
    TextsGood(es);
    KeepOffsetExact(Texts(es), Times(es), cutoff);
    assert Exact(Texts(es), OldPrefix(Times(es), cutoff), cutoff);
  }

  lemma RotateRefines(st: Store, es: seq<Event>, cutoff: int, renamed: bool)
    requires Represents(st, es) && cutoff > 0
    ensures Represents(RotateByTime(st, cutoff, renamed),
                       Replaced(es, es[OldPrefix(Times(es), cutoff)..], renamed))
  {
    var k := OldPrefix(Times(es), cutoff);
    OffsetKnown(st, es, cutoff);
    PrefixEmpty(Texts(es), k);
    if k == |es| {
      assert es[k..] == [];
    } else if k == 0 {
      assert es[0..] == es;
    } else {
      SuffixRefines(st, es, k);
    }
  }

  // ---------- runs ----------

  /** Events of any length may be appended. A delete meets only lines that fit its buffer. */
  predicate Legal(es: seq<Event>, op: Op) {
    match op
    case DoAppend(e, _) => PlainTimes(e)
    case DoDeleteByWorker(worker, _) => worker != 0 ==> AllShort(es)
    case DoDeleteOne(_, _, _) => AllShort(es)
    case _ => true
  }

  /** Every operation on the bytes is the operation on the list. */
  lemma StepRefines(st: Store, es: seq<Event>, op: Op)
    requires Represents(st, es) && Legal(es, op)
    ensures Represents(Apply(st, op), LogStep(es, op))
  {
    match op
    case DoAppend(e, renamed) =>
      if Accepted(Render(e)) { AppendRefines(st, es, e, renamed); }
    case DoDeleteByWorker(worker, renamed) =>
      if worker != 0 {
        forall i | 0 <= i < |es|
          ensures MentionsWorker(Render(es[i]) + "\n", worker) <==> es[i].worker == worker
        {
          WorkerTestExact(es[i], worker);
        }
        DeleteRefines(st, es, (chunk: string) => MentionsWorker(chunk, worker),
                      (e: Event) => e.worker == worker, renamed);
      }
    case DoDeleteOne(ts, mono, renamed) =>
      forall i | 0 <= i < |es|
        ensures MentionsTimes(Render(es[i]) + "\n", ts, mono) <==> es[i].ts == ts && es[i].mono == mono
      {
        TimesTestExact(es[i], ts, mono);
      }
      DeleteRefines(st, es, (chunk: string) => MentionsTimes(chunk, ts, mono),
                    (e: Event) => e.ts == ts && e.mono == mono, renamed);
    case DoRotateByTime(cutoff, renamed) =>
      if cutoff > 0 { RotateRefines(st, es, cutoff, renamed); }
    case DoWipe =>
    case DoBoot =>
      TextsGood(es);
      NewlinesOfJoin(Texts(es));
  }

  function RunBytes(ops: seq<Op>): Store {
    if ops == [] then Store(None, 0) else Apply(RunBytes(ops[..|ops| - 1]), ops[|ops| - 1])
  }

  function RunLog(ops: seq<Op>): seq<Event> {
    if ops == [] then [] else LogStep(RunLog(ops[..|ops| - 1]), ops[|ops| - 1])
  }

  ghost predicate LegalRun(ops: seq<Op>) {
    forall i :: 0 <= i < |ops| ==> Legal(RunLog(ops[..i]), ops[i])
  }

  lemma LegalBefore(ops: seq<Op>)
    requires LegalRun(ops) && ops != []
    ensures LegalRun(ops[..|ops| - 1]) && Legal(RunLog(ops[..|ops| - 1]), ops[|ops| - 1])
  {
    var before := ops[..|ops| - 1];
    forall i | 0 <= i < |before|
      ensures Legal(RunLog(before[..i]), before[i])
    {
      assert before[..i] == ops[..i];
    }
  }

  /** After any run the file is the concatenation of the surviving events, the cached count is their number,
      and iteration passes on exactly them. */
  lemma {:induction false} RunRefines(ops: seq<Op>)
    requires LegalRun(ops)
    ensures Represents(RunBytes(ops), RunLog(ops))
    ensures Iterated(Text(RunBytes(ops))) == Texts(RunLog(ops))
  {
    if ops != [] {
      LegalBefore(ops);
      RunRefines(ops[..|ops| - 1]);
      StepRefines(RunBytes(ops[..|ops| - 1]), RunLog(ops[..|ops| - 1]), ops[|ops| - 1]);
    }
    TextsGood(RunLog(ops));
    IteratesLines(Texts(RunLog(ops)));
  }

  // ---------- what rotations leave ----------

  /** Everything that was ever accepted for appending. */
  function Appended(ops: seq<Op>): seq<Event> {
    if ops == [] then [] else Appended(ops[..|ops| - 1]) + AddedBy(ops[|ops| - 1])
  }

  predicate Removes(op: Op) {
    op.DoDeleteByWorker? || op.DoDeleteOne? || op.DoWipe?
  }

  /** `es` is what is left of `all` when its oldest entries are dropped. */
  predicate Newest(es: seq<Event>, all: seq<Event>) {
    |es| <= |all| && es == all[|all| - |es|..]
  }

  lemma NewestDrop(es: seq<Event>, all: seq<Event>, k: nat)
    requires Newest(es, all) && k <= |es|
    ensures Newest(es[k..], all)
  {
  }

  lemma NewestPush(es: seq<Event>, all: seq<Event>, e: Event)
    requires Newest(es, all)
    ensures Newest(es + [e], all + [e])
  {
    assert (all + [e])[|all| - |es|..] == es + [e];
  }

  /** What a size rotation drops. */
  function TrimmedAway(es: seq<Event>): (k: nat)
    ensures k <= |es|
  {
    var size := |Join(Texts(es))|;
    if size <= MAX_BYTES then 0 else FirstBehind(Texts(es), size - size / 2)
  }

  lemma TrimmedDrops(es: seq<Event>)
    ensures Trimmed(es) == es[TrimmedAway(es)..]
  {
  }

  /** What an operation drops of the old log, and what it adds. */
  function DroppedBy(es: seq<Event>, op: Op): (k: nat)
    ensures k <= |es|
  {
    match op
    case DoAppend(e, renamed) => if Accepted(Render(e)) && renamed then TrimmedAway(es) else 0
    case DoRotateByTime(cutoff, renamed) =>
      var k := if cutoff <= 0 then 0 else OldPrefix(Times(es), cutoff);
      if renamed || k == |es| then k else 0
    case _ => 0
  }

  function AddedBy(op: Op): seq<Event> {
    if op.DoAppend? && Accepted(Render(op.e)) then [op.e] else []
  }

  lemma StepDrops(es: seq<Event>, op: Op)
    requires !Removes(op)
    ensures LogStep(es, op) == es[DroppedBy(es, op)..] + AddedBy(op)
  {
    TrimmedDrops(es);
    assert es[0..] == es && forall s: seq<Event> :: s + [] == s;
  }

  lemma NewestStep(es: seq<Event>, all: seq<Event>, op: Op)
    requires Newest(es, all) && !Removes(op)
    ensures var more := all + AddedBy(op);
            Newest(LogStep(es, op), more) && |all| - |es| <= |more| - |LogStep(es, op)|
  {
    StepDrops(es, op);
    var kept, added := es[DroppedBy(es, op)..], AddedBy(op);
    NewestDrop(es, all, DroppedBy(es, op));
    if added == [] {
      assert kept + added == kept && all + added == all;
    } else {
      NewestPush(kept, all, added[0]);
      assert added == [added[0]];
    }
  }

  /** Without deletes and wipes, the log is at any time everything appended so far but for its oldest entries, and
      what has been dropped stays dropped. */
  lemma {:induction false} RotationsDropOldest(ops: seq<Op>, n: nat)
    requires n <= |ops| && forall i :: 0 <= i < |ops| ==> !Removes(ops[i])
    ensures Newest(RunLog(ops), Appended(ops)) && Newest(RunLog(ops[..n]), Appended(ops[..n]))
    ensures |Appended(ops[..n])| - |RunLog(ops[..n])| <= |Appended(ops)| - |RunLog(ops)|
  {
    if n < |ops| {
      var before := ops[..|ops| - 1];
      RotationsDropOldest(before, n);
      assert before[..n] == ops[..n];
      NewestStep(RunLog(before), Appended(before), ops[|ops| - 1]);
    } else {
      assert ops[..n] == ops;
      if ops != [] {
        RotationsDropOldest(ops[..|ops| - 1], |ops| - 1);
        NewestStep(RunLog(ops[..|ops| - 1]), Appended(ops[..|ops| - 1]), ops[|ops| - 1]);
      }
    }
  }

  // ---------- what the operations on the list mean ----------

  /** How many of the first `n` events are not selected. */
  function Rank(es: seq<Event>, gone: Event -> bool, n: nat): nat
    requires n <= |es|
  {
    if n == 0 then 0 else Rank(es, gone, n - 1) + if gone(es[n - 1]) then 0 else 1
  }

  lemma {:induction false} RankFront(es: seq<Event>, gone: Event -> bool, n: nat)
    requires 0 < n <= |es|
    ensures Rank(es, gone, n) == (if gone(es[0]) then 0 else 1) + Rank(es[1..], gone, n - 1)
  {
    if n > 1 {
      RankFront(es, gone, n - 1);
      assert es[n - 1] == es[1..][n - 2];
    } else {
      assert Rank(es, gone, 0) == 0;
    }
  }

  /** All the events that are not selected are left, and nothing else, in the old order. */
  lemma {:induction false} WithoutKeeps(es: seq<Event>, gone: Event -> bool)
    ensures |Without(es, gone)| == Rank(es, gone, |es|)
    ensures forall i :: 0 <= i < |es| && !gone(es[i]) ==>
              Rank(es, gone, i) < |Without(es, gone)| && Without(es, gone)[Rank(es, gone, i)] == es[i]
  {
    if es != [] {
      WithoutKeeps(es[1..], gone);
      RankFront(es, gone, |es|);
      forall i | 0 <= i < |es| && !gone(es[i])
        ensures Rank(es, gone, i) < |Without(es, gone)| && Without(es, gone)[Rank(es, gone, i)] == es[i]
      {
        if i > 0 {
          RankFront(es, gone, i);
          assert es[1..][i - 1] == es[i];
        }
      }
    }
  }

  lemma {:induction false} NothingLeft(es: seq<Event>, gone: Event -> bool)
    ensures Without(es, gone) == [] <==> forall i :: 0 <= i < |es| ==> gone(es[i])
  {
    if es != [] {
      NothingLeft(es[1..], gone);
      assert forall i :: 0 < i < |es| ==> es[i] == es[1..][i - 1];
    }
  }

  /** What an operation wants to take out of the log. */
  predicate Selects(op: Op, e: Event) {
    match op
    case DoDeleteByWorker(worker, _) => worker != 0 && e.worker == worker
    case DoDeleteOne(ts, mono, _) => e.ts == ts && e.mono == mono
    case DoRotateByTime(cutoff, _) => cutoff > 0 && e.ts < cutoff
    case DoWipe => true
    case _ => false
  }

  /** Without a successful rename nothing is taken out, unless everything is; an append still appends. */
  lemma FailedRenameKeeps(es: seq<Event>, op: Op)
    requires (op.DoDeleteByWorker? || op.DoDeleteOne? || op.DoRotateByTime? || op.DoAppend?) && !op.renamed
    ensures LogStep(es, op)
            == if op.DoAppend? then (if 0 < |Render(op.e)| <= 1024 then es + [op.e] else es)
               else if forall i :: 0 <= i < |es| ==> Selects(op, es[i]) then []
               else es
  {
    match op
    case DoDeleteByWorker(worker, _) => NothingLeft(es, (e: Event) => e.worker == worker);
    case DoDeleteOne(ts, mono, _) => NothingLeft(es, (e: Event) => e.ts == ts && e.mono == mono);
    case DoRotateByTime(cutoff, _) =>
      forall i | 0 <= i < |es|
        ensures Times(es)[i] == es[i].ts
      {
        TimeAt(es, i);
      }
    case _ =>
  }

  /** As long as the file has at most 512 KiB an append drops nothing. */
  lemma AppendKeepsAll(es: seq<Event>, e: Event, renamed: bool)
    requires |Join(Texts(es))| <= 524288
    ensures LogStep(es, DoAppend(e, renamed)) == if 0 < |Render(e)| <= 1024 then es + [e] else es
  {
  }

  // ---------- the size of the file ----------

  lemma {:induction false} KeptLength(s: string, drop: string -> bool)
    ensures |Kept(Chunks(s, DELETE_BUF), drop)| <= |s|
    decreases |s|
  {
    if s != "" {
      var k := Got(s, DELETE_BUF);
      KeptLength(s[k..], drop);
      assert Chunks(s, DELETE_BUF)[1..] == Chunks(s[k..], DELETE_BUF);
    }
  }

  lemma DeleteLength(st: Store, drop: string -> bool, renamed: bool)
    ensures |Text(Delete(st, drop, renamed))| <= |Text(st)|
  {
    KeptLength(Text(st), drop);
  }

  lemma RotateLength(st: Store, cutoff: int, renamed: bool)
    ensures |Text(RotateByTime(st, cutoff, renamed))| <= |Text(st)|
  {
  }

  lemma AppendLength(st: Store, line: string)
    requires |Text(st)| <= MAX_BYTES + LINE_MAX + 1
    ensures |Text(Append(st, line, true))| <= MAX_BYTES + LINE_MAX + 1
  {
    if |Text(st)| > MAX_BYTES { assert |Rotated(Text(st))| <= |Text(st)| / 2; }
  }

  /** Whatever is appended, as long as renames succeed the file never exceeds its cap by more than one line. */
  lemma {:induction false} SizeBounded(ops: seq<Op>)
    requires forall i :: 0 <= i < |ops| && ops[i].DoAppend? ==> ops[i].renamed
    ensures |Text(RunBytes(ops))| <= 524288 + 1025
  {
    if ops != [] {
      SizeBounded(ops[..|ops| - 1]);
      var st := RunBytes(ops[..|ops| - 1]);
      match ops[|ops| - 1]
      case DoAppend(e, renamed) => AppendLength(st, Render(e));
      case DoDeleteByWorker(worker, renamed) =>
        DeleteLength(st, (chunk: string) => MentionsWorker(chunk, worker), renamed);
      case DoDeleteOne(ts, mono, renamed) =>
        DeleteLength(st, (chunk: string) => MentionsTimes(chunk, ts, mono), renamed);
      case DoRotateByTime(cutoff, renamed) => RotateLength(st, cutoff, renamed);
      case _ =>
    }
  }
}
