/** Rotation by age: scanning the file in 511-character chunks for the first line that is new enough. */
module TimeRotation {
  import opened Common
  import opened JsonText
  import opened EventText
  import opened StoreText

  const TS_PREFIX := "{\"ts\":"

  // ---------- parse_ts_from_line ----------

  predicate IsSpace(c: char) {
    c == ' ' || 9 <= c as int <= 13
  }

  function LeadingDigits(s: string): (k: nat)
    ensures k <= |s| && (forall i :: 0 <= i < k ==> IsDigit(s[i]))
    ensures k < |s| ==> !IsDigit(s[k])
  {
    if s == "" || !IsDigit(s[0]) then 0 else 1 + LeadingDigits(s[1..])
  }

  function DigitsValue(s: string): nat {
    Value(s[..LeadingDigits(s)])
  }

  function Atoll(s: string): int {
    if s == "" then 0
    else if IsSpace(s[0]) then Atoll(s[1..])
    else if s[0] == '-' then 0 - DigitsValue(s[1..])
    else if s[0] == '+' then DigitsValue(s[1..])
    else DigitsValue(s)
  }

  function ParseTs(chunk: string): int {
    if TS_PREFIX <= chunk then Atoll(chunk[|TS_PREFIX|..]) else 0
  }

  lemma {:induction false} DigitsThen(d: string, rest: string)
    requires forall i :: 0 <= i < |d| ==> IsDigit(d[i])
    requires rest != "" && !IsDigit(rest[0])
    ensures LeadingDigits(d + rest) == |d|
  {
    if d == "" {
      assert d + rest == rest;
    } else {
      DigitsThen(d[1..], rest);
      assert (d + rest)[0] == d[0] && (d + rest)[1..] == d[1..] + rest;
    }
  }

  lemma AtollOfDec(n: nat, rest: string)
    requires rest != "" && !IsDigit(rest[0])
    ensures Atoll(Dec(n) + rest) == n
  {
    var s := Dec(n) + rest;
    assert IsDigit(s[0]) by { assert s[0] == Dec(n)[0]; }
    DigitsThen(Dec(n), rest);
    assert s[..|Dec(n)|] == Dec(n);
    ValueOfDec(n);
  }

  // ---------- the scan ----------

  /** The test of a chunk. */
  function LateThan(cutoff: int): string -> bool {
    (chunk: string) => ParseTs(chunk) >= cutoff
  }

  /** Where the first chunk that passes a test starts; `None` if there is none. */
  function FirstLate(s: string, late: string -> bool): (r: Option<nat>)
    ensures r.Some? ==> r.value < |s|
    decreases |s|
  {
    if s == "" then None
    else
      var k := Got(s, TIME_BUF);
      if late(s[..k]) then Some(0)
      else
        var r := FirstLate(s[k..], late);
        if r.Some? then Some(k + r.value) else None
  }

  /** `keep_offset`: where the first chunk with a late enough time starts. */
  function KeepOffset(s: string, cutoff: int): (r: Option<nat>)
    ensures r.Some? ==> r.value < |s|
  {
    FirstLate(s, LateThan(cutoff))
  }

  /** The file after the rotation; `None` if nothing is kept. */
  function TimeRotated(s: string, cutoff: int): Option<string> {
    var r := KeepOffset(s, cutoff);
    if r.Some? then Some(s[r.value..]) else None
  }

  function Shifted(r: Option<nat>, k: nat): Option<nat> {
    if r.Some? then Some(k + r.value) else None
  }

  /** A line of which only the first chunk can look dated. */
  predicate DatedOnce(l: string) {
    NewlineFree(l) && forall i :: 0 < i <= |l| ==> !(TS_PREFIX <= l[i..])
  }

  /** A test that no undated chunk passes. */
  ghost predicate NeedsDate(late: string -> bool) {
    forall c: string :: late(c) ==> TS_PREFIX <= c
  }

  lemma RestOfLine(t: string, rest: string, k: nat)
    requires k <= |t| + 1
    ensures var s := t + "\n" + rest;
            s[k..] == if k < |t| then t[k..] + "\n" + rest else if k == |t| then "" + "\n" + rest else rest
  {
  }

  /** One chunk of what is left of a line. */
  lemma PartPassed(t: string, rest: string, k: nat, late: string -> bool)
    requires NewlineFree(t) && k == Got(t + "\n" + rest, TIME_BUF) && !late((t + "\n" + rest)[..k])
    ensures k <= |t| + 1
    ensures FirstLate(t + "\n" + rest, late)
            == Shifted(FirstLate(if k < |t| then t[k..] + "\n" + rest else if k == |t| then "" + "\n" + rest else rest,
                                 late), k)
  {
    LineLenOf(t, rest);
    RestOfLine(t, rest, k);
  }

  /** Further chunks of a long line, and its newline, are passed over. */
  lemma {:induction false} LaterChunksPassed(l: string, i: nat, rest: string, late: string -> bool)
    requires DatedOnce(l) && 0 < i <= |l| && NeedsDate(late)
    ensures FirstLate(l[i..] + "\n" + rest, late) == Shifted(FirstLate(rest, late), |l| + 1 - i)
    decreases |l| - i
  {
    var t := l[i..];
    var k := Got(t + "\n" + rest, TIME_BUF);
    LineLenOf(t, rest);
    ChunkUndated(l, i, rest, k);
    PartPassed(t, rest, k, late);
    if k < |t| {
      assert t[k..] == l[i + k..];
      LaterChunksPassed(l, i + k, rest, late);
    } else if k == |t| {
      LastNewline(rest, late);
    }
  }

  lemma LastNewline(rest: string, late: string -> bool)
    requires NeedsDate(late)
    ensures FirstLate("" + "\n" + rest, late) == Shifted(FirstLate(rest, late), 1)
  {
    var s := "" + "\n" + rest;
    assert s[0] == '\n' && s[1..] == rest;
    assert Got(s, TIME_BUF) == 1;
    assert s[..1][0] != '{';
  }

  lemma PrefixWithin(p: string, t: string, rest: string, k: nat)
    requires NewlineFree(p) && k <= |t| + 1 && p <= (t + "\n" + rest)[..k]
    ensures p <= t
  {
    var s := t + "\n" + rest;
    assert forall j :: 0 <= j < |p| ==> p[j] == s[j];
    assert s[|t|] == '\n';
    assert p == t[..|p|];
  }

  lemma ChunkUndated(l: string, i: nat, rest: string, k: nat)
    requires DatedOnce(l) && 0 < i <= |l| && k <= |l| - i + 1
    ensures !(TS_PREFIX <= (l[i..] + "\n" + rest)[..k])
  {
    if TS_PREFIX <= (l[i..] + "\n" + rest)[..k] { PrefixWithin(TS_PREFIX, l[i..], rest, k); }
  }

  /** A line whose first chunk, and no other, is dated `ts`. */
  predicate Dated(l: string, ts: int) {
    DatedOnce(l) && ParseTs((l + "\n")[..Got(l + "\n", TIME_BUF)]) == ts
  }

  lemma SameFirstChunk(l: string, rest: string)
    requires NewlineFree(l)
    ensures var s, k := l + "\n" + rest, Got(l + "\n", TIME_BUF);
            Got(s, TIME_BUF) == k && s[..k] == (l + "\n")[..k]
  {
    LineLenOf(l, rest);
    LineLenOf(l, "");
    assert l + "\n" + "" == l + "\n";
  }

  /** One dated line is kept, with everything behind it, or passed over as a whole. */
  lemma LineStep(l: string, ts: int, rest: string, cutoff: int)
    requires Dated(l, ts) && cutoff > 0
    ensures KeepOffset(l + "\n" + rest, cutoff)
            == if ts >= cutoff then Some(0) else Shifted(KeepOffset(rest, cutoff), |l| + 1)
  {
    var s := l + "\n" + rest;
    SameFirstChunk(l, rest);
    LineLenOf(l, rest);
    var k := Got(s, TIME_BUF);
    if k == |l| + 1 {
      assert s[k..] == rest;
    } else {
      assert s[k..] == l[k..] + "\n" + rest;
      LaterChunksPassed(l, k, rest, LateThan(cutoff));
    }
  }

  /** Number of leading times before the cutoff. */
  function OldPrefix(times: seq<int>, cutoff: int): (k: nat)
    ensures k <= |times| && (forall i :: 0 <= i < k ==> times[i] < cutoff)
    ensures k < |times| ==> times[k] >= cutoff
  {
    if times == [] || times[0] >= cutoff then 0 else 1 + OldPrefix(times[1..], cutoff)
  }

  predicate AllDated(lines: seq<string>, times: seq<int>) {
    |lines| == |times| && forall i :: 0 <= i < |lines| ==> Dated(lines[i], times[i])
  }

  predicate Exact(lines: seq<string>, k: nat, cutoff: int)
    requires k <= |lines|
  {
    KeepOffset(Join(lines), cutoff) == if k < |lines| then Some(|Join(lines[..k])|) else None
  }

  lemma ExactStep(l: string, ts: int, rest: seq<string>, k: nat, cutoff: int)
    requires Dated(l, ts) && cutoff > 0 && k <= |rest| && Exact(rest, k, cutoff)
    ensures Exact([l] + rest, if ts >= cutoff then 0 else k + 1, cutoff)
  {
    LineStep(l, ts, Join(rest), cutoff);
    JoinStep(l, rest);
    if ts < cutoff {
      assert ([l] + rest)[..k + 1] == [l] + rest[..k];
      JoinStep(l, rest[..k]);
    }
  }

  lemma {:induction false} KeepOffsetExact(lines: seq<string>, times: seq<int>, cutoff: int)
    requires AllDated(lines, times) && cutoff > 0
    ensures Exact(lines, OldPrefix(times, cutoff), cutoff)
  {
    if lines != [] {
      KeepOffsetExact(lines[1..], times[1..], cutoff);
      ExactStep(lines[0], times[0], lines[1..], OldPrefix(times[1..], cutoff), cutoff);
      assert [lines[0]] + lines[1..] == lines;
    }
  }

  /** Time rotation keeps exactly the log without its longest prefix of older lines, whatever their length;
      it removes the file if and only if all are older. */
  lemma TimeRotationExact(lines: seq<string>, times: seq<int>, cutoff: int)
    requires AllDated(lines, times) && cutoff > 0
    ensures var k := OldPrefix(times, cutoff);
            TimeRotated(Join(lines), cutoff) == if k < |lines| then Some(Join(lines[k..])) else None
  {
    KeepOffsetExact(lines, times, cutoff);
    JoinSplit(lines, OldPrefix(times, cutoff));
  }

  // ---------- written events ----------

  /** A printed object starts with its first field. */
  lemma ObjectHead(fs: seq<Field>)
    requires |fs| > 1
    ensures var ft := FieldText(fs[0]);
            |Object(fs)| > |ft| && Object(fs)[|ft|] == ','
            && forall i :: 0 < i < |ft| ==> Object(fs)[i] == ft[i]
  {
    FieldPlace(fs, 0);
    var ft, t := FieldText(fs[0]), FieldsText(fs);
    assert Offset(fs, 0) == 0;
    ObjectChars(fs, |ft|);
    forall i | 0 < i < |ft|
      ensures Object(fs)[i] == ft[i]
    {
      ObjectChars(fs, i);
      assert t[i] == t[0..|ft|][i];
    }
  }

  lemma RenderHead(e: Event)
    ensures var h := TS_PREFIX + Dec(e.ts); h <= Render(e) && |Render(e)| > |h| && Render(e)[|h|] == ','
  {
    var fs, h := Fields(e), TS_PREFIX + Dec(e.ts);
    var ft := FieldText(fs[0]);
    ObjectHead(fs);
    ObjectChars(fs, 0);
    assert ft == ",\"ts\":" + Dec(e.ts);
    assert |h| == |ft| && forall i :: 0 < i < |h| ==> h[i] == ft[i];
    assert h == Object(fs)[..|h|];
  }

  lemma EventDatedOnce(e: Event)
    requires NewlineFree(Render(e))
    ensures DatedOnce(Render(e))
  {
    var s := Render(e);
    forall i | 0 < i <= |s|
      ensures !(TS_PREFIX <= s[i..])
    {
      if TS_PREFIX <= s[i..] {
        assert s[i + 1..i + 1 + 5] == s[i..][..6][1..] == TS_PREFIX[1..] == Key("ts");
        FieldsSafe(e);
        PlainNames();
        var k := KeyOnlyAtField(Fields(e), "ts", i + 1);
        NamePlace(e, k);
      }
    }
  }

  lemma HeadParsed(c: string, n: nat)
    requires var h := TS_PREFIX + Dec(n); |c| > |h| && c[..|h|] == h && c[|h|] == ','
    ensures ParseTs(c) == n
  {
    var h := TS_PREFIX + Dec(n);
    assert c[..6] == h[..6] == TS_PREFIX;
    assert c[6..] == h[6..] + c[|h|..];
    AtollOfDec(n, c[|h|..]);
  }

  /** A written event is dated by its time. */
  lemma EventDated(e: Event)
    requires PlainTimes(e) && NewlineFree(Render(e))
    ensures Dated(Render(e), e.ts)
  {
    EventDatedOnce(e);
    RenderHead(e);
    DecLength(e.ts, 15);
    ChunkHead(Render(e), e.ts);
  }

  lemma ChunkHead(l: string, n: nat)
    requires NewlineFree(l) && |Dec(n)| <= 15
    requires var h := TS_PREFIX + Dec(n); |l| > |h| && h <= l && l[|h|] == ','
    ensures ParseTs((l + "\n")[..Got(l + "\n", TIME_BUF)]) == n
  {
    LineLenOf(l, "");
    assert l + "\n" + "" == l + "\n";
    HeadParsed((l + "\n")[..Got(l + "\n", TIME_BUF)], n);
  }
}
