/** The event file as a sequence of characters: lines, `fgets` chunks and what the rotations keep. */
module StoreText {
  import opened JsonText

  const LINE_MAX := 1024
  const ITER_BUF := 1025
  const DELETE_BUF := 1024
  const TIME_BUF := 512

  /** Length of the first line, its newline included; the whole text if there is no newline. */
  function LineLen(s: string): (k: nat)
    requires s != ""
    ensures 0 < k <= |s|
  {
    if s[0] == '\n' || |s| == 1 then 1 else 1 + LineLen(s[1..])
  }

  /** How much `fgets` reads into a buffer of `cap` characters. */
  function Got(s: string, cap: nat): (k: nat)
    requires s != "" && cap >= 2
    ensures 0 < k <= |s| && k < cap
  {
    if LineLen(s) < cap - 1 then LineLen(s) else cap - 1
  }

  /** What successive calls of `fgets` return. */
  function Chunks(s: string, cap: nat): seq<string>
    requires cap >= 2
    decreases |s|
  {
    if s == "" then [] else [s[..Got(s, cap)]] + Chunks(s[Got(s, cap)..], cap)
  }

  function Join(lines: seq<string>): string {
    if lines == [] then "" else lines[0] + "\n" + Join(lines[1..])
  }

  function Newlines(s: string): nat {
    if s == "" then 0 else (if s[0] == '\n' then 1 else 0) + Newlines(s[1..])
  }

  // ---------- lines ----------

  lemma {:induction false} LineLenOf(l: string, rest: string)
    requires NewlineFree(l)
    ensures LineLen(l + "\n" + rest) == |l| + 1
  {
    var s := l + "\n" + rest;
    if l != "" {
      assert s[0] == l[0] != '\n' && |s| > 1;
      assert s[1..] == l[1..] + "\n" + rest;
      LineLenOf(l[1..], rest);
    }
  }

  lemma {:induction false} NewlinesOf(l: string, rest: string)
    requires NewlineFree(l)
    ensures Newlines(l + "\n" + rest) == 1 + Newlines(rest)
  {
    var s := l + "\n" + rest;
    if l == "" {
      assert s[1..] == rest;
    } else {
      assert s[0] == l[0] != '\n';
      assert s[1..] == l[1..] + "\n" + rest;
      NewlinesOf(l[1..], rest);
    }
  }

  predicate AllNewlineFree(lines: seq<string>) {
    forall i :: 0 <= i < |lines| ==> NewlineFree(lines[i])
  }

  lemma {:induction false} NewlinesOfJoin(lines: seq<string>)
    requires AllNewlineFree(lines)
    ensures Newlines(Join(lines)) == |lines|
  {
    if lines != [] {
      NewlinesOfJoin(lines[1..]);
      NewlinesOf(lines[0], Join(lines[1..]));
    }
  }

  lemma JoinStep(l: string, rest: seq<string>)
    ensures Join([l] + rest) == l + "\n" + Join(rest)
  {
    assert ([l] + rest)[1..] == rest;
  }

  lemma {:induction false} JoinConcat(a: seq<string>, b: seq<string>)
    ensures Join(a + b) == Join(a) + Join(b)
  {
    if a == [] {
      assert a + b == b;
    } else {
      JoinConcat(a[1..], b);
      assert (a + b)[0] == a[0] && (a + b)[1..] == a[1..] + b;
    }
  }

  lemma JoinSplit(lines: seq<string>, k: nat)
    requires k <= |lines|
    ensures Join(lines) == Join(lines[..k]) + Join(lines[k..])
    ensures |Join(lines[..k])| <= |Join(lines)|
    ensures Join(lines)[|Join(lines[..k])|..] == Join(lines[k..])
  {
    JoinConcat(lines[..k], lines[k..]);
    assert lines[..k] + lines[k..] == lines;
  }

  // ---------- iteration ----------

  /** A line as the iteration passes it on: the newline is cut off. */
  function Stripped(chunk: string): string {
    if chunk != "" && chunk[|chunk| - 1] == '\n' then chunk[..|chunk| - 1] else chunk
  }

  /** The lines passed to the callback: stripped chunks, empty ones left out. */
  function Passed(chunks: seq<string>): seq<string> {
    if chunks == [] then []
    else
      var l := Stripped(chunks[0]);
      (if l == "" then [] else [l]) + Passed(chunks[1..])
  }

  lemma PassedStep(chunk: string, rest: seq<string>)
    ensures Passed([chunk] + rest)
            == (if Stripped(chunk) == "" then [] else [Stripped(chunk)]) + Passed(rest)
  {
    assert ([chunk] + rest)[1..] == rest;
  }

  function Iterated(s: string): seq<string> {
    Passed(Chunks(s, ITER_BUF))
  }

  predicate GoodLine(l: string) {
    l != "" && NewlineFree(l) && |l| <= LINE_MAX
  }

  predicate AllGood(lines: seq<string>) {
    forall i :: 0 <= i < |lines| ==> GoodLine(lines[i])
  }

  /** One call of `fgets` on a text that starts with a line or with a full buffer of it. */
  lemma FirstChunk(chunk: string, rest: string, cap: nat)
    requires cap >= 2 && chunk != "" && Got(chunk + rest, cap) == |chunk|
    ensures Chunks(chunk + rest, cap) == [chunk] + Chunks(rest, cap)
  {
    var s := chunk + rest;
    assert s[..|chunk|] == chunk && s[|chunk|..] == rest;
  }

  /** A line that fits the buffer with its newline is one chunk. */
  lemma ShortLine(l: string, rest: string, cap: nat)
    requires NewlineFree(l) && cap >= 2 && |l| + 1 < cap
    ensures Chunks(l + "\n" + rest, cap) == [l + "\n"] + Chunks(rest, cap)
  {
    LineLenOf(l, rest);
    FirstChunk(l + "\n", rest, cap);
  }

  /** A line that fills the buffer is followed by a chunk that holds only its newline. */
  lemma FullLine(l: string, rest: string, cap: nat)
    requires NewlineFree(l) && cap >= 3 && |l| + 1 == cap
    ensures Chunks(l + "\n" + rest, cap) == [l] + (["\n"] + Chunks(rest, cap))
  {
    LineLenOf(l, rest);
    assert l + "\n" + rest == l + ("\n" + rest);
    FirstChunk(l, "\n" + rest, cap);
    ShortLine("", rest, cap);
    assert "" + "\n" == "\n" && "" + "\n" + rest == "\n" + rest;
  }

  /** Iteration passes on exactly the lines, up to the longest line that can be appended. */
  lemma {:induction false} IteratesLines(lines: seq<string>)
    requires AllGood(lines)
    ensures Iterated(Join(lines)) == lines
  {
    if lines != [] {
      var l, rest := lines[0], Join(lines[1..]);
      IteratesLines(lines[1..]);
      assert GoodLine(l);
      if |l| < LINE_MAX {
        ShortLine(l, rest, ITER_BUF);
        PassedStep(l + "\n", Chunks(rest, ITER_BUF));
      } else {
        FullLine(l, rest, ITER_BUF);
        assert Stripped(l) == l && Stripped("\n") == "";
        PassedStep(l, ["\n"] + Chunks(rest, ITER_BUF));
        PassedStep("\n", Chunks(rest, ITER_BUF));
      }
    }
  }

  // ---------- deletes ----------

  /** The chunks that a delete keeps, glued together again. */
  function Kept(chunks: seq<string>, drop: string -> bool): string {
    if chunks == [] then "" else (if drop(chunks[0]) then "" else chunks[0]) + Kept(chunks[1..], drop)
  }

  function KeptCount(chunks: seq<string>, drop: string -> bool): nat {
    if chunks == [] then 0 else (if drop(chunks[0]) then 0 else 1) + KeptCount(chunks[1..], drop)
  }

  lemma KeptStep(chunk: string, rest: seq<string>, drop: string -> bool)
    ensures Kept([chunk] + rest, drop) == (if drop(chunk) then "" else chunk) + Kept(rest, drop)
    ensures KeptCount([chunk] + rest, drop) == (if drop(chunk) then 0 else 1) + KeptCount(rest, drop)
  {
    assert ([chunk] + rest)[1..] == rest;
  }

  function Select(lines: seq<string>, drop: string -> bool): seq<string> {
    if lines == [] then []
    else (if drop(lines[0] + "\n") then [] else [lines[0]]) + Select(lines[1..], drop)
  }

  /** A delete works line by line when every line fits its buffer with the newline. */
  lemma {:induction false} DeletesLines(lines: seq<string>, drop: string -> bool)
    requires forall i :: 0 <= i < |lines| ==> NewlineFree(lines[i]) && |lines[i]| <= DELETE_BUF - 2
    ensures Kept(Chunks(Join(lines), DELETE_BUF), drop) == Join(Select(lines, drop))
    ensures KeptCount(Chunks(Join(lines), DELETE_BUF), drop) == |Select(lines, drop)|
    ensures |Chunks(Join(lines), DELETE_BUF)| == |lines|
  {
    if lines != [] {
      var l, rest := lines[0], Join(lines[1..]);
      DeletesLines(lines[1..], drop);
      ShortLine(l, rest, DELETE_BUF);
      assert ([l + "\n"] + Chunks(rest, DELETE_BUF))[1..] == Chunks(rest, DELETE_BUF);
      JoinStep(l, Select(lines[1..], drop));
      assert [] + Select(lines[1..], drop) == Select(lines[1..], drop);
    }
  }

  predicate Terminated(chunk: string) {
    chunk != "" && chunk[|chunk| - 1] == '\n'
  }

  /** A chunk has at most one newline, at its end. */
  lemma {:induction false} ChunkNewlines(s: string, k: nat)
    requires s != "" && 0 < k <= LineLen(s)
    ensures Newlines(s[..k]) == if s[k - 1] == '\n' then 1 else 0
    ensures forall i :: 0 <= i < k - 1 ==> s[i] != '\n'
  {
    if k > 1 {
      ChunkNewlines(s[1..], k - 1);
      assert s[..k][1..] == s[1..][..k - 1];
      forall i | 0 <= i < k - 1
        ensures s[i] != '\n'
      {
        if i > 0 { assert s[i] == s[1..][i - 1]; }
      }
    } else {
      assert s[..1][1..] == "";
    }
  }

  lemma {:induction false} NewlinesConcat(a: string, b: string)
    ensures Newlines(a + b) == Newlines(a) + Newlines(b)
  {
    if a == "" {
      assert a + b == b;
    } else {
      NewlinesConcat(a[1..], b);
      assert (a + b)[1..] == a[1..] + b;
    }
  }

  function Unterminated(chunks: seq<string>, drop: string -> bool): nat {
    if chunks == [] then 0
    else (if !drop(chunks[0]) && !Terminated(chunks[0]) then 1 else 0) + Unterminated(chunks[1..], drop)
  }

  /** The number of chunks a delete keeps exceeds the newlines it keeps by the unterminated ones among them,
      whatever the file holds. */
  lemma {:induction false} KeptCountExact(s: string, drop: string -> bool)
    ensures var cs := Chunks(s, DELETE_BUF);
            KeptCount(cs, drop) == Newlines(Kept(cs, drop)) + Unterminated(cs, drop)
    decreases |s|
  {
    if s != "" {
      var k := Got(s, DELETE_BUF);
      var c, rest := s[..k], s[k..];
      KeptCountExact(rest, drop);
      ChunkNewlines(s, k);
      var cs := Chunks(s, DELETE_BUF);
      assert cs[0] == c && cs[1..] == Chunks(rest, DELETE_BUF);
      NewlinesConcat(if drop(c) then "" else c, Kept(cs[1..], drop));
    }
  }

  /** A line too long for the buffer becomes a full chunk and a rest with the newline. */
  lemma LongLine(l: string, rest: string)
    requires NewlineFree(l) && DELETE_BUF - 1 <= |l| <= LINE_MAX
    ensures var n := DELETE_BUF - 1;
            Chunks(l + "\n" + rest, DELETE_BUF)
            == [l[..n]] + ([l[n..] + "\n"] + Chunks(rest, DELETE_BUF))
  {
    var n := DELETE_BUF - 1;
    LineLenOf(l, rest);
    assert l + "\n" + rest == l[..n] + (l[n..] + "\n" + rest);
    FirstChunk(l[..n], l[n..] + "\n" + rest, DELETE_BUF);
    ShortLine(l[n..], rest, DELETE_BUF);
  }

  predicate Long(l: string) {
    |l| >= DELETE_BUF - 1
  }

  /** The chunk of a line that a delete's test looks at: all of it, or as much as fits the buffer. */
  function TestedChunk(l: string): string {
    if Long(l) then l[..DELETE_BUF - 1] else l + "\n"
  }

  /** What is left of a line whose first chunk is dropped. */
  function Stub(l: string): string {
    if Long(l) then l[DELETE_BUF - 1..] + "\n" else ""
  }

  /** The lines whose tested chunk is not dropped, and how many lines are long. */
  function Survivors(lines: seq<string>, drop: string -> bool): seq<string> {
    if lines == [] then []
    else (if drop(TestedChunk(lines[0])) then [] else [lines[0]]) + Survivors(lines[1..], drop)
  }

  function LongCount(lines: seq<string>): nat {
    if lines == [] then 0 else (if Long(lines[0]) then 1 else 0) + LongCount(lines[1..])
  }

  /** The text a delete leaves: the surviving lines, and the stubs of the dropped ones. */
  function Left(lines: seq<string>, drop: string -> bool): string {
    if lines == [] then ""
    else (if drop(TestedChunk(lines[0])) then Stub(lines[0]) else lines[0] + "\n") + Left(lines[1..], drop)
  }

  /** A delete never drops a stub. */
  predicate SparesStubs(lines: seq<string>, drop: string -> bool) {
    forall i :: 0 <= i < |lines| && Long(lines[i]) ==> !drop(Stub(lines[i]))
  }

  lemma TwoChunksDeleted(a: string, b: string, more: seq<string>, drop: string -> bool)
    requires !drop(b)
    ensures var cs := [a] + ([b] + more);
            Kept(cs, drop) == (if drop(a) then b else a + b) + Kept(more, drop)
            && KeptCount(cs, drop) == (if drop(a) then 0 else 1) + 1 + KeptCount(more, drop)
            && |cs| == 2 + |more|
  {
    KeptStep(b, more, drop);
    KeptStep(a, [b] + more, drop);
    assert a + (b + Kept(more, drop)) == (a + b) + Kept(more, drop);
    assert "" + (b + Kept(more, drop)) == b + Kept(more, drop);
  }

  lemma LongDeleted(l: string, rest: string, drop: string -> bool)
    requires GoodLine(l) && Long(l) && !drop(Stub(l))
    ensures var cs, more := Chunks(l + "\n" + rest, DELETE_BUF), Chunks(rest, DELETE_BUF);
            var gone := drop(TestedChunk(l));
            Kept(cs, drop) == (if gone then Stub(l) else l + "\n") + Kept(more, drop)
            && KeptCount(cs, drop) == (if gone then 0 else 1) + 1 + KeptCount(more, drop)
            && |cs| == 2 + |more|
  {
    LongLine(l, rest);
    TwoChunksDeleted(TestedChunk(l), Stub(l), Chunks(rest, DELETE_BUF), drop);
    assert TestedChunk(l) + Stub(l) == l + "\n";
  }

  lemma ShortDeleted(l: string, rest: string, drop: string -> bool)
    requires GoodLine(l) && !Long(l)
    ensures var cs, more := Chunks(l + "\n" + rest, DELETE_BUF), Chunks(rest, DELETE_BUF);
            var gone := drop(TestedChunk(l));
            Kept(cs, drop) == (if gone then "" else l + "\n") + Kept(more, drop)
            && KeptCount(cs, drop) == (if gone then 0 else 1) + KeptCount(more, drop)
            && |cs| == 1 + |more|
  {
    ShortLine(l, rest, DELETE_BUF);
    KeptStep(l + "\n", Chunks(rest, DELETE_BUF), drop);
  }

  /** What a delete makes of any file of appended lines: every long line adds one to the count, and a dropped one
      leaves its stub in the text. */
  lemma {:induction false} DeletesAny(lines: seq<string>, drop: string -> bool)
    requires AllGood(lines) && SparesStubs(lines, drop)
    ensures var cs := Chunks(Join(lines), DELETE_BUF);
            Kept(cs, drop) == Left(lines, drop)
            && KeptCount(cs, drop) == |Survivors(lines, drop)| + LongCount(lines)
            && |cs| == |lines| + LongCount(lines)
  {
    if lines != [] {
      assert GoodLine(lines[0]);
      DeletesAny(lines[1..], drop);
      if Long(lines[0]) {
        LongDeleted(lines[0], Join(lines[1..]), drop);
      } else {
        ShortDeleted(lines[0], Join(lines[1..]), drop);
      }
    }
  }

  /** The text is that of the survivors if and only if no long line is dropped. */
  lemma {:induction false} LeftIsSurvivors(lines: seq<string>, drop: string -> bool)
    ensures |Left(lines, drop)| >= |Join(Survivors(lines, drop))|
    ensures Left(lines, drop) == Join(Survivors(lines, drop)) <==>
            forall i :: 0 <= i < |lines| && Long(lines[i]) ==> !drop(TestedChunk(lines[i]))
  {
    if lines != [] {
      var l, rest, gone := lines[0], lines[1..], drop(TestedChunk(lines[0]));
      LeftIsSurvivors(rest, drop);
      var tail := Survivors(rest, drop);
      if gone {
        assert Survivors(lines, drop) == tail;
      } else {
        JoinStep(l, tail);
        assert Left(lines, drop)[|l| + 1..] == Left(rest, drop);
        assert (l + "\n" + Join(tail))[|l| + 1..] == Join(tail);
      }
      assert forall i :: 1 <= i < |lines| ==> lines[i] == rest[i - 1];
    }
  }

  // ---------- size rotation ----------

  /** What `rotate_events_locked` keeps: the second half, from the first line that starts in it. */
  function Rotated(s: string): string {
    var tail := s[|s| - |s| / 2..];
    if tail == "" then "" else tail[LineLen(tail)..]
  }

  /** Number of lines up to and including the one that holds position `p`. */
  function FirstBehind(lines: seq<string>, p: nat): (k: nat)
    ensures k <= |lines|
  {
    if lines == [] then 0
    else if p <= |lines[0]| then 1
    else 1 + FirstBehind(lines[1..], p - |lines[0]| - 1)
  }

  /** From any place in a file of lines, skipping to the next newline lands on the start of the next line. */
  lemma {:induction false} NextLine(lines: seq<string>, p: nat)
    requires AllNewlineFree(lines) && p < |Join(lines)|
    ensures var k, n := FirstBehind(lines, p), LineLen(Join(lines)[p..]);
            0 < k && p + n == |Join(lines[..k])| && n <= |lines[k - 1]| + 1
  {
    var l, rest := lines[0], Join(lines[1..]);
    var s := Join(lines);
    if p <= |l| {
      assert s[p..] == l[p..] + "\n" + rest;
      LineLenOf(l[p..], rest);
      assert lines[..1][1..] == [] && lines[..1][0] == l;
    } else {
      var q := p - |l| - 1;
      assert s[p..] == rest[q..];
      NextLine(lines[1..], q);
      var k := FirstBehind(lines, p);
      assert lines[..k][0] == l && lines[..k][1..] == lines[1..][..k - 1];
    }
  }

  /** Size rotation keeps whole lines, at most half of the file, and at most one line less than half. */
  lemma {:induction false} RotatedLines(lines: seq<string>)
    requires AllGood(lines) && |Join(lines)| > 1
    ensures var s := Join(lines);
            Rotated(s) == Join(lines[FirstBehind(lines, |s| - |s| / 2)..])
            && |s| / 2 - (1025) <= |Rotated(s)| <= |s| / 2
  {
    var s := Join(lines);
    var p := |s| - |s| / 2;
    var k := FirstBehind(lines, p);
    NextLine(lines, p);
    JoinSplit(lines, k);
    assert GoodLine(lines[k - 1]);
    assert s[p..][LineLen(s[p..])..] == s[|Join(lines[..k])|..];
  }
}
