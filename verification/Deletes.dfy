/** The deletes on every log of appended events: when they do what their names say, and what else they do. */
module Deletes {
  import opened Common
  import opened JsonText
  import opened EventText
  import opened StoreText
  import opened EventStore

  /** An event as the firmware's types bound it: its numbers are printed with all their digits. */
  predicate Typical(e: Event) {
    PlainTimes(e) && e.worker < 65536
  }

  predicate Storable(es: seq<Event>) {
    forall i :: 0 <= i < |es| ==> Typical(es[i]) && |Render(es[i])| <= LINE_MAX
  }

  // ---------- the tests look no further than the first chunk ----------

  /** If a needle only occurs well inside the first `n` characters, the test can be made on these. */
  lemma SameOnPrefix(s: string, n: nat, needle: string, terminators: string)
    requires n <= |s| && needle != ""
    requires forall i: nat :: OccursAt(s, i, needle) ==> i + |needle| < n
    ensures Found(s[..n], needle, terminators) <==> Found(s, needle, terminators)
  {
    var p, m := s[..n], FirstOccurrence(s, needle);
    forall i: nat
      ensures OccursAt(p, i, needle) <==> OccursAt(s, i, needle)
    {
      if i + |needle| <= n { assert p[i..i + |needle|] == s[i..i + |needle|]; }
    }
    assert FirstOccurrence(p, needle) == if m < |s| then m else n;
  }

  lemma FieldLength(f: Field)
    ensures |FieldText(f)| == 4 + |f.name| + |f.value|
  {
  }

  /** The fields before the reason and the note are short. */
  lemma HeadShort(e: Event)
    requires Typical(e)
    ensures forall k :: 0 <= k < |Fields(e)| && k < 6 && Fields(e)[k].name != "reason" && Fields(e)[k].name != "note"
                        ==> |FieldText(Fields(e)[k])| <= 30
  {
    DecLength(e.ts, 15);
    DecLength(e.mono, 15);
    assert Pow10(5) == 100000;
    DecLength(e.worker, 5);
    assert |"ts"| == 2 && |"mono_us"| == 7 && |"type"| == 4 && |"src"| == 3 && |"peer"| == 4 && |"worker_id"| == 9;
  }

  lemma {:induction false} OffsetBound(fs: seq<Field>, k: nat)
    requires k <= |fs| && forall j :: 0 <= j < k ==> |FieldText(fs[j])| <= 30
    ensures Offset(fs, k) <= 30 * k
  {
    if k > 0 {
      OffsetBound(fs, k - 1);
      OffsetNext(fs, k - 1);
    } else {
      assert fs[..0] == [];
    }
  }

  /** The numeric fields that are searched for end within the first 180 characters. */
  lemma EndsEarly(e: Event, k: nat)
    requires Typical(e) && k < |Fields(e)| && Fields(e)[k].name in {"ts", "mono_us", "worker_id"}
    ensures Offset(Fields(e), k + 1) <= 180
  {
    NamePlace(e, k);
    EarlyNames(e);
    HeadShort(e);
    OffsetBound(Fields(e), k + 1);
  }

  /** A value free of terminators that occurs where a terminated value stands is no longer than that. */
  lemma NoLonger(s: string, at: nat, v: string, w: string)
    requires OccursAt(s, at, v) && OccursAt(s, at, w) && FreeOf(v, ",}") && at + |w| < |s| && s[at + |w|] in ",}"
    ensures |v| <= |w|
  {
    assert forall j :: 0 <= j < |v| ==> v[j] == s[at..at + |v|][j] == s[at + j];
  }

  /** Where the needle of a numeric field occurs in a line, it ends within the field. */
  lemma OccursEarly(e: Event, name: string, v: string, i: nat)
    requires name in {"ts", "mono_us", "worker_id"} && FreeOf(v, ",}") && v != "" && NewlineFree(v)
    requires Typical(e) && OccursAt(Render(e) + "\n", i, Key(name) + v)
    ensures i + |Key(name) + v| < DELETE_BUF - 1
  {
    PlainNames();
    FieldsSafe(e);
    var k := AtField(Fields(e), name, v, i);
    EndsEarly(e, k);
    OccursWithin(Fields(e), k, v, i);
  }

  lemma OccursWithin(fs: seq<Field>, k: nat, v: string, i: nat)
    requires k < |fs| && i == Offset(fs, k) + 1 && FreeOf(v, ",}")
    requires OccursAt(Object(fs) + "\n", i, Key(fs[k].name) + v)
    ensures i + |Key(fs[k].name) + v| <= Offset(fs, k + 1)
  {
    var s, key, w := Object(fs) + "\n", Key(fs[k].name), fs[k].value;
    ValueFollows(fs, k);
    OccursSplit(s, i, key, v);
    NoLonger(s, i + |key|, v, w);
    OffsetNext(fs, k);
    FieldLength(fs[k]);
    assert |key| == |fs[k].name| + 3;
  }

  lemma EarlyNames(e: Event)
    ensures forall j :: 0 <= j < |Fields(e)| && j < 5 && (j < 4 || e.peer.Some?)
                        ==> Fields(e)[j].name in {"ts", "mono_us", "type", "src", "peer"}
  {
  }

  lemma ShortText(s: string, needle: string, terminators: string)
    requires |needle| > |s| > 0
    ensures !Found(s, needle, terminators)
  {
  }

  lemma LongText(l: string)
    requires Long(l) && |l| <= LINE_MAX
    ensures TestedChunk(l) == (l + "\n")[..DELETE_BUF - 1] && |Stub(l)| <= 2
  {
  }

  lemma NumberText(v: int)
    ensures FreeOf(IntText(v), ",}") && NewlineFree(IntText(v)) && IntText(v) != ""
  {
  }

  /** The test for a number in a line, made on its first chunk. */
  lemma NumberOnChunk(e: Event, name: string, v: int, terminators: string)
    requires Typical(e) && |Render(e)| <= LINE_MAX && name in {"ts", "mono_us", "worker_id"}
    ensures var l, needle := Render(e), Key(name) + IntText(v);
            (Found(TestedChunk(l), needle, terminators) <==> Found(l + "\n", needle, terminators))
            && (Long(l) ==> !Found(Stub(l), needle, terminators))
  {
    var l, needle := Render(e), Key(name) + IntText(v);
    NumberText(v);
    if Long(l) {
      LongText(l);
      forall i: nat | OccursAt(l + "\n", i, needle)
        ensures i + |needle| < DELETE_BUF - 1
      {
        OccursEarly(e, name, IntText(v), i);
      }
      SameOnPrefix(l + "\n", DELETE_BUF - 1, needle, terminators);
      ShortText(Stub(l), needle, terminators);
    }
  }

  lemma WorkerOnChunk(e: Event, worker: nat)
    requires Typical(e) && |Render(e)| <= LINE_MAX && worker != 0
    ensures MentionsWorker(TestedChunk(Render(e)), worker) <==> e.worker == worker
    ensures Long(Render(e)) ==> !MentionsWorker(Stub(Render(e)), worker)
  {
    NumberOnChunk(e, "worker_id", worker, ",} ");
    WorkerTestExact(e, worker);
  }

  lemma TimesOnChunk(e: Event, ts: int, mono: int)
    requires Typical(e) && |Render(e)| <= LINE_MAX
    ensures MentionsTimes(TestedChunk(Render(e)), ts, mono) <==> e.ts == ts && e.mono == mono
    ensures Long(Render(e)) ==> !MentionsTimes(Stub(Render(e)), ts, mono)
  {
    NumberOnChunk(e, "ts", ts, ",}");
    NumberOnChunk(e, "mono_us", mono, ",}");
    TimesTestExact(e, ts, mono);
  }

  // ---------- the result of a delete ----------

  /** The file of these events, with the right count. */
  function Stored(es: seq<Event>): Store {
    Store(Some(Join(Texts(es))), |es|)
  }

  /** The file holds exactly these events and the count is their number. */
  predicate Holds(st: Store, es: seq<Event>) {
    Text(st) == Join(Texts(es)) && st.count == |es|
  }

  predicate IsLong(e: Event) {
    Long(Render(e))
  }

  function LongEvents(es: seq<Event>): nat {
    if es == [] then 0 else (if IsLong(es[0]) then 1 else 0) + LongEvents(es[1..])
  }

  lemma {:induction false} NoLongEvents(es: seq<Event>)
    ensures LongEvents(es) == 0 <==> forall i :: 0 <= i < |es| ==> !IsLong(es[i])
  {
    if es != [] {
      NoLongEvents(es[1..]);
      assert forall i :: 1 <= i < |es| ==> es[i] == es[1..][i - 1];
    }
  }

  /** The test picks these events. */
  ghost predicate Picks(es: seq<Event>, drop: string -> bool, gone: Event -> bool) {
    forall i :: 0 <= i < |es| ==>
      (drop(TestedChunk(Render(es[i]))) <==> gone(es[i])) && (IsLong(es[i]) ==> !drop(Stub(Render(es[i]))))
  }

  lemma SurvivorsStep(e: Event, es: seq<Event>, drop: string -> bool, gone: Event -> bool)
    requires drop(TestedChunk(Render(e))) <==> gone(e)
    requires Survivors(Texts(es), drop) == Texts(Without(es, gone)) && LongCount(Texts(es)) == LongEvents(es)
    ensures Survivors(Texts([e] + es), drop) == Texts(Without([e] + es, gone))
    ensures LongCount(Texts([e] + es)) == LongEvents([e] + es)
  {
    var all, rest := [e] + es, Without(es, gone);
    assert all[1..] == es && Texts(all)[1..] == Texts(es) && Texts(all)[0] == Render(e);
    assert ([e] + rest)[1..] == rest && [] + rest == rest;
  }

  lemma {:induction false} SurvivorsAre(es: seq<Event>, drop: string -> bool, gone: Event -> bool)
    requires Picks(es, drop, gone)
    ensures Survivors(Texts(es), drop) == Texts(Without(es, gone)) && LongCount(Texts(es)) == LongEvents(es)
  {
    if es != [] {
      assert forall i :: 0 <= i < |es| - 1 ==> es[1..][i] == es[i + 1];
      SurvivorsAre(es[1..], drop, gone);
      SurvivorsStep(es[0], es[1..], drop, gone);
      assert [es[0]] + es[1..] == es;
    }
  }

  lemma TextsOk(es: seq<Event>, drop: string -> bool, gone: Event -> bool)
    requires Picks(es, drop, gone) && Storable(es)
    ensures AllGood(Texts(es)) && SparesStubs(Texts(es), drop)
  {
    forall i | 0 <= i < |es|
      ensures GoodLine(Texts(es)[i]) && (Long(Texts(es)[i]) ==> !drop(Stub(Texts(es)[i])))
    {
      TextAt(es, i);
      RenderNewlineFree(es[i]);
      assert IsLong(es[i]) == Long(Texts(es)[i]);
    }
  }

  /** What the copy loop writes, in terms of the events. */
  lemma CopyOfEvents(es: seq<Event>, drop: string -> bool, gone: Event -> bool)
    requires Picks(es, drop, gone) && Storable(es)
    ensures var cs, left := Chunks(Join(Texts(es)), DELETE_BUF), Without(es, gone);
            KeptCount(cs, drop) == |left| + LongEvents(es) && |cs| == |es| + LongEvents(es)
            && (Kept(cs, drop) == Join(Texts(left)) <==> forall i :: 0 <= i < |es| && gone(es[i]) ==> !IsLong(es[i]))
  {
    TextsOk(es, drop, gone);
    DeletesAny(Texts(es), drop);
    SurvivorsAre(es, drop, gone);
    LeftIsSurvivors(Texts(es), drop);
    NoneLong(es, Texts(es), drop, gone);
  }

  lemma {:induction false} NoneLong(es: seq<Event>, lines: seq<string>, drop: string -> bool, gone: Event -> bool)
    requires Picks(es, drop, gone) && lines == Texts(es)
    ensures (forall i :: 0 <= i < |es| && gone(es[i]) ==> !IsLong(es[i]))
            <==> forall i :: 0 <= i < |lines| && Long(lines[i]) ==> !drop(TestedChunk(lines[i]))
  {
    forall i | 0 <= i < |es|
      ensures lines[i] == Render(es[i])
    {
      TextAt(es, i);
    }
    assert forall i :: 0 <= i < |es| ==>
             IsLong(es[i]) == Long(lines[i]) && (drop(TestedChunk(lines[i])) <==> gone(es[i]));
  }

  /** A delete whose copy replaces the file counts each long event of the old file once too often, and its file
      is that of the survivors if and only if none of the deleted is long; a delete of nothing changes nothing. */
  lemma DeleteCounted(es: seq<Event>, drop: string -> bool, gone: Event -> bool)
    requires Picks(es, drop, gone) && Storable(es)
    ensures var r, left := Delete(Stored(es), drop, true), Without(es, gone);
            if left == es then r == Stored(es)
            else
              r.count == |left| + LongEvents(es)
              && (Text(r) == Join(Texts(left)) <==> forall i :: 0 <= i < |es| && gone(es[i]) ==> !IsLong(es[i]))
  {
    CopyOfEvents(es, drop, gone);
    WithoutSome(es, gone);
    NoLongEvents(es);
    CountedFrom(es, Without(es, gone), drop, forall i :: 0 <= i < |es| && gone(es[i]) ==> !IsLong(es[i]));
  }

  /** From what the copy loop made to the store. */
  lemma CountedFrom(es: seq<Event>, left: seq<Event>, drop: string -> bool, noStub: bool)
    requires var cs := Chunks(Join(Texts(es)), DELETE_BUF);
             KeptCount(cs, drop) == |left| + LongEvents(es) && |cs| == |es| + LongEvents(es)
             && (Kept(cs, drop) == Join(Texts(left)) <==> noStub)
    requires |left| <= |es| && (|left| == |es| ==> left == es) && (LongEvents(es) == 0 ==> noStub)
    ensures var r := Delete(Stored(es), drop, true);
            if left == es then r == Stored(es)
            else r.count == |left| + LongEvents(es) && (Text(r) == Join(Texts(left)) <==> noStub)
  {
  }

  lemma DeleteRight(es: seq<Event>, drop: string -> bool, gone: Event -> bool)
    requires Picks(es, drop, gone) && Storable(es) && Without(es, gone) != es
    ensures Holds(Delete(Stored(es), drop, true), Without(es, gone))
            <==> forall i :: 0 <= i < |es| ==> |Render(es[i])| < 1023
  {
    DeleteCounted(es, drop, gone);
    NoLongEvents(es);
  }

  lemma WorkerPicks(es: seq<Event>, worker: nat)
    requires Storable(es) && worker != 0
    ensures Picks(es, (chunk: string) => MentionsWorker(chunk, worker), (e: Event) => e.worker == worker)
  {
    forall i | 0 <= i < |es|
      ensures MentionsWorker(TestedChunk(Render(es[i])), worker) <==> es[i].worker == worker
      ensures IsLong(es[i]) ==> !MentionsWorker(Stub(Render(es[i])), worker)
    {
      WorkerOnChunk(es[i], worker);
    }
  }

  /** Deleting a worker that has events: the copy that replaces the file holds exactly the others' events and the
      count is their number, if and only if no event of the old file, kept or deleted, prints to 1023 or 1024
      characters. Whatever the lengths, the count is too high by the number of such events. */
  lemma DeleteByWorkerRightIff(es: seq<Event>, worker: nat)
    requires Storable(es) && worker != 0
    ensures var gone := (e: Event) => e.worker == worker;
            var r, left := DeleteByWorker(Stored(es), worker, true), Without(es, gone);
            left != es ==>
              r.count == |left| + LongEvents(es)
              && (Holds(r, left) <==> forall i :: 0 <= i < |es| ==> |Render(es[i])| < 1023)
  {
    var drop, gone := (chunk: string) => MentionsWorker(chunk, worker), (e: Event) => e.worker == worker;
    WorkerPicks(es, worker);
    if Without(es, gone) != es {
      DeleteCounted(es, drop, gone);
      DeleteRight(es, drop, gone);
    }
  }

  /** The same of deleting one event by its two times. */
  lemma DeleteOneRightIff(es: seq<Event>, ts: int, mono: int)
    requires Storable(es)
    ensures var gone := (e: Event) => e.ts == ts && e.mono == mono;
            var r, left := DeleteOne(Stored(es), ts, mono, true), Without(es, gone);
            left != es ==>
              r.count == |left| + LongEvents(es)
              && (Holds(r, left) <==> forall i :: 0 <= i < |es| ==> |Render(es[i])| < 1023)
  {
    var drop := (chunk: string) => MentionsTimes(chunk, ts, mono);
    var gone := (e: Event) => e.ts == ts && e.mono == mono;
    forall i | 0 <= i < |es|
      ensures drop(TestedChunk(Render(es[i]))) <==> gone(es[i])
      ensures IsLong(es[i]) ==> !drop(Stub(Render(es[i])))
    {
      TimesOnChunk(es[i], ts, mono);
    }
    if Without(es, gone) != es {
      DeleteCounted(es, drop, gone);
      DeleteRight(es, drop, gone);
    }
  }

  // ---------- both failures, on events ----------

  lemma TwoEvents(l: Event, m: Event, gone: Event -> bool)
    requires !gone(l) && gone(m)
    ensures Without([l, m], gone) == [l] && LongEvents([l, m]) == (if IsLong(l) then 1 else 0) + if IsLong(m) then 1 else 0
  {
    assert [l, m][1..] == [m] && [m][1..] == [];
    assert Without([m], gone) == [] + Without([], gone) == [];
    assert [l] + [] == [l];
    assert LongEvents([m]) == (if IsLong(m) then 1 else 0) + LongEvents([]);
  }

  /** Deleting a short event beside a long one leaves the long one and a count of two. */
  lemma KeptLongCountedTwice(l: Event, m: Event)
    requires Storable([l, m]) && IsLong(l) && !IsLong(m) && m.worker != 0 && m.worker != l.worker
    ensures var r := DeleteByWorker(Stored([l, m]), m.worker, true);
            Iterated(Text(r)) == [Render(l)] && r.count == 2
  {
    var es, gone := [l, m], (e: Event) => e.worker == m.worker;
    var drop := (chunk: string) => MentionsWorker(chunk, m.worker);
    assert Storable([l]) by { assert [l][0] == es[0]; }
    hide Picks, LongEvents, Without, Iterated, Texts, IsLong;
    WorkerPicks(es, m.worker);
    TwoEvents(l, m, gone);
    DeleteCounted(es, drop, gone);
    LineIterated(l);
  }

  lemma LineIterated(l: Event)
    requires Storable([l])
    ensures Iterated(Join(Texts([l]))) == [Render(l)]
  {
    assert |Render([l][0])| <= LINE_MAX;
    OneText(l);
    RenderNewlineFree(l);
    IteratesLines([Render(l)]);
  }

  lemma LongDropped(line: string, drop: string -> bool)
    requires GoodLine(line) && Long(line) && drop(TestedChunk(line)) && !drop(Stub(line))
    ensures Delete(Store(Some(Join([line])), 1), drop, true) == Store(Some(Stub(line)), 1)
  {
    var lines := [line];
    assert lines[1..] == [];
    DeletesAny(lines, drop);
    assert Left(lines, drop) == Stub(line) + Left(lines[1..], drop) && Left(lines[1..], drop) == "";
    assert Survivors(lines, drop) == Survivors(lines[1..], drop) == [];
    assert LongCount(lines) == 1 + LongCount(lines[1..]) == 1;
    assert Stub(line) + "" == Stub(line);
    var cs := Chunks(Join(lines), DELETE_BUF);
    assert Kept(cs, drop) == Stub(line) && KeptCount(cs, drop) == 1 && |cs| == 2;
  }

  /** Deleting a long event leaves a stub and a count of one: an empty line, or the event's last brace. */
  lemma DeletedLongLeavesStub(l: Event)
    requires Storable([l]) && IsLong(l) && l.worker != 0
    ensures var r := DeleteByWorker(Stored([l]), l.worker, true);
            r == Store(Some(Stub(Render(l))), 1)
            && Iterated(Text(r)) == if |Render(l)| == 1023 then [] else ["}"]
  {
    assert [l][0] == l;
    WorkerOnChunk(l, l.worker);
    RenderNewlineFree(l);
    LongDropped(Render(l), (chunk: string) => MentionsWorker(chunk, l.worker));
    OneText(l);
    StubIterated(l);
  }

  lemma OneText(e: Event)
    ensures Texts([e]) == [Render(e)]
  {
    assert [e][1..] == [];
  }

  lemma StubIterated(l: Event)
    requires Long(Render(l)) && |Render(l)| <= LINE_MAX
    ensures Stub(Render(l)) != "" && Iterated(Stub(Render(l))) == if |Render(l)| == DELETE_BUF - 1 then [] else ["}"]
  {
    var line := Render(l);
    if |line| == DELETE_BUF - 1 {
      assert Stub(line) == "\n" && "" + "\n" + "" == "\n";
      ShortLine("", "", ITER_BUF);
      PassedStep("" + "\n", []);
      assert ["" + "\n"] + [] == ["\n"] && Stripped("\n") == "";
    } else {
      ObjectChars(Fields(l), |line| - 1);
      assert Stub(line) == "}" + "\n";
      JoinOne("}");
      IteratesLines(["}"]);
    }
  }

  function Xs(n: nat): (s: string)
    ensures |s| == n && Escape(s) == s
  {
    if n == 0 then "" else "x" + Xs(n - 1)
  }

  /** Notes make events of any length up to the longest line that is accepted. */
  lemma LongEventsExist(a: Addr, worker: nat, n: nat) returns (e: Event)
    requires 0 < worker < 65536 && 200 <= n <= LINE_MAX
    ensures e.worker == worker && Typical(e) && |Render(e)| == n
  {
    var base := Event(1, 1, In, ManualWeb, Some(a), worker, 0, "");
    var fs := Fields(base);
    assert Pow10(1) == 10 && Pow10(2) == 100 && Pow10(15) >= 10 by { PowGrows(15); }
    HeadShort(base);
    OffsetBound(fs, 6);
    assert fs[..6] == fs;
    var m := n - |FieldsText(fs)| - 11;
    e := base.(note := Xs(m));
    var f := Field("note", Quoted(Escape(e.note)));
    assert Fields(e) == fs + [f];
    assert (fs + [f])[..|fs|] == fs;
    FieldLength(f);
    ObjectChars(Fields(e), 0);
  }

  lemma {:induction false} PowGrows(k: nat)
    requires k > 0
    ensures Pow10(k) >= 10
  {
    if k > 1 { PowGrows(k - 1); }
  }
}
