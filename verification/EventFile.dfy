/** The event file as the store's code works on it: streams read chunk by chunk, a copy written and renamed
    over the original, a count kept beside it. Each operation is proved to be the one of `EventStore`. */
module EventFile {
  import opened Common
  import opened JsonText
  import opened EventText
  import opened StoreText
  import opened TimeRotation
  import opened EventStore

  const COPY_BUF := 1024

  datatype Status = Ok | InvalidArg | Fail

  /** What is still to be read from position `pos` on. */
  ghost predicate Ahead(s: string, pos: nat, cap: nat, todo: seq<string>)
    requires cap >= 2
  {
    pos <= |s| && todo == Chunks(s[pos..], cap)
  }

  lemma AheadOfAll(s: string, cap: nat)
    requires cap >= 2
    ensures Ahead(s, 0, cap, Chunks(s, cap))
  {
    assert s[0..] == s;
  }

  /** The chunk just read and those behind it. */
  ghost function Unread(chunk: string, todo: seq<string>): seq<string> {
    if chunk == "" then [] else [chunk] + todo
  }

  /** `fgets` from position `pos`; the chunk is empty at the end of the file. */
  method Fgets(s: string, pos: nat, cap: nat) returns (chunk: string, ghost rest: seq<string>)
    requires pos <= |s| && cap >= 2
    ensures chunk == "" <==> pos == |s|
    ensures Ahead(s, pos, cap, Unread(chunk, rest)) && Ahead(s, pos + |chunk|, cap, rest)
  {
    if pos == |s| { return "", []; }
    var k := Got(s[pos..], cap);
    chunk := s[pos..][..k];
    rest := Chunks(s[pos + k..], cap);
    assert s[pos..][k..] == s[pos + k..];
  }

  lemma OneAhead(s: string, pos: nat, cap: nat, x: seq<string>, y: seq<string>)
    requires cap >= 2 && Ahead(s, pos, cap, x) && Ahead(s, pos, cap, y)
    ensures x == y
  {
  }

  /** The `fread`/`fwrite` loop: everything from `pos` on. */
  method CopyFrom(s: string, pos: nat) returns (out: string)
    requires pos <= |s|
    ensures out == s[pos..]
  {
    out := "";
    var p := pos;
    while p < |s|
      invariant pos <= p <= |s| && out == s[pos..p]
    {
      var n := if |s| - p < COPY_BUF then |s| - p else COPY_BUF;
      assert s[pos..p] + s[p..p + n] == s[pos..p + n];
      out := out + s[p..p + n];
      p := p + n;
    }
  }

  /** The `fgetc` loop past the partial line at `pos`. */
  method SkipLine(s: string, pos: nat) returns (p: nat)
    requires pos <= |s|
    ensures p == if pos == |s| then pos else pos + LineLen(s[pos..])
  {
    p := pos;
    while p < |s| && s[p] != '\n'
      invariant pos <= p <= |s|
      invariant pos < |s| ==> pos + LineLen(s[pos..]) == if p < |s| then p + LineLen(s[p..]) else p
    {
      assert s[p..][1..] == s[p + 1..];
      p := p + 1;
    }
    if p < |s| { p := p + 1; }
  }

  method CountNewlines(s: string) returns (n: nat)
    ensures n == Newlines(s)
  {
    n := 0;
    var p := 0;
    while p < |s|
      invariant 0 <= p <= |s| && n + Newlines(s[p..]) == Newlines(s)
    {
      assert s[p..][1..] == s[p + 1..];
      if s[p] == '\n' { n := n + 1; }
      p := p + 1;
    }
  }

  /** `todo` is left of `all` when so much has been kept and dropped. */
  ghost predicate Copied(all: seq<string>, todo: seq<string>, drop: string -> bool, out: string, kept: nat,
                         dropped: nat)
  {
    out + Kept(todo, drop) == Kept(all, drop) && kept + KeptCount(todo, drop) == KeptCount(all, drop)
    && kept + dropped + |todo| == |all|
  }

  lemma CopiedStep(all: seq<string>, chunk: string, todo: seq<string>, drop: string -> bool, out: string,
                   kept: nat, dropped: nat)
    requires Copied(all, [chunk] + todo, drop, out, kept, dropped)
    ensures if drop(chunk) then Copied(all, todo, drop, out, kept, dropped + 1)
            else Copied(all, todo, drop, out + chunk, kept + 1, dropped)
  {
    KeptStep(chunk, todo, drop);
    assert out + (chunk + Kept(todo, drop)) == (out + chunk) + Kept(todo, drop);
    assert "" + Kept(todo, drop) == Kept(todo, drop);
  }

  /** The copy loop of the deletes. */
  method CopyKept(s: string, drop: string -> bool) returns (out: string, kept: nat, dropped: nat)
    ensures var chunks := Chunks(s, DELETE_BUF);
            out == Kept(chunks, drop) && kept == KeptCount(chunks, drop) && kept + dropped == |chunks|
  {
    hide Chunks, Stripped;
    out, kept, dropped := "", 0, 0;
    ghost var all := Chunks(s, DELETE_BUF);
    AheadOfAll(s, DELETE_BUF);
    var p := 0;
    var chunk: string;
    ghost var todo;
    chunk, todo := Fgets(s, p, DELETE_BUF);
    OneAhead(s, p, DELETE_BUF, all, Unread(chunk, todo));
    while chunk != ""
      invariant p + |chunk| <= |s| && Ahead(s, p + |chunk|, DELETE_BUF, todo)
      invariant Copied(all, Unread(chunk, todo), drop, out, kept, dropped)
      decreases |s| - p, |chunk|
    {
      CopiedStep(all, chunk, todo, drop, out, kept, dropped);
      if drop(chunk) {
        dropped := dropped + 1;
      } else {
        out, kept := out + chunk, kept + 1;
      }
      p := p + |chunk|;
      ghost var left := todo;
      chunk, todo := Fgets(s, p, DELETE_BUF);
      OneAhead(s, p, DELETE_BUF, left, Unread(chunk, todo));
    }
  }

  /** The scan from position `p` on. */
  function OffsetFrom(s: string, p: nat, late: string -> bool): Option<nat>
    requires p <= |s|
    decreases |s| - p
  {
    if p == |s| then None
    else
      var k := Got(s[p..], TIME_BUF);
      if late(s[p..][..k]) then Some(p) else OffsetFrom(s, p + k, late)
  }

  lemma {:induction false} OffsetFromShifts(s: string, p: nat, late: string -> bool)
    requires p <= |s|
    ensures OffsetFrom(s, p, late) == Shifted(FirstLate(s[p..], late), p)
    decreases |s| - p
  {
    hide Got;
    if p < |s| {
      var k := Got(s[p..], TIME_BUF);
      assert s[p..][k..] == s[p + k..];
      OffsetFromShifts(s, p + k, late);
    }
  }

  /** The scan of the rotation by age. */
  method FindKeepOffset(s: string, cutoff: int) returns (keep: Option<nat>)
    ensures keep == KeepOffset(s, cutoff)
  {
    keep := None;
    OffsetFromShifts(s, 0, LateThan(cutoff));
    assert s[0..] == s;
    var p := 0;
    while p < |s|
      invariant p <= |s| && OffsetFrom(s, 0, LateThan(cutoff)) == OffsetFrom(s, p, LateThan(cutoff))
      decreases |s| - p
    {
      var k := Got(s[p..], TIME_BUF);
      if ParseTs(s[p..][..k]) >= cutoff { return Some(p); }
      p := p + k;
    }
  }

  /** `todo` is left of `all` when these lines have been passed on. */
  ghost predicate PassedOn(all: seq<string>, todo: seq<string>, passed: seq<string>) {
    passed + Passed(todo) == Passed(all)
  }

  lemma PassedOnStep(all: seq<string>, chunk: string, todo: seq<string>, passed: seq<string>)
    requires PassedOn(all, [chunk] + todo, passed)
    ensures PassedOn(all, todo, if Stripped(chunk) == "" then passed else passed + [Stripped(chunk)])
  {
    PassedStep(chunk, todo);
    var l := Stripped(chunk);
    assert passed + ([l] + Passed(todo)) == (passed + [l]) + Passed(todo);
    assert [] + Passed(todo) == Passed(todo);
  }

  /** The lines a callback gets if it returns an error at the line of index `stop`. */
  function UpTo(lines: seq<string>, stop: nat): seq<string> {
    if stop < |lines| then lines[..stop + 1] else lines
  }

  lemma PassedUpTo(all: seq<string>, todo: seq<string>, passed: seq<string>, stop: nat)
    requires PassedOn(all, todo, passed) && (|passed| == stop + 1 || (todo == [] && |passed| <= stop))
    ensures passed == UpTo(Passed(all), stop)
  {
  }

  /** The iteration's loop over the chunks. */
  method PassOn(s: string, stop: nat) returns (passed: seq<string>)
    ensures passed == UpTo(Iterated(s), stop)
  {
    hide Chunks, Passed, Stripped;
    passed := [];
    ghost var all := Chunks(s, ITER_BUF);
    AheadOfAll(s, ITER_BUF);
    var p := 0;
    var chunk: string;
    ghost var todo;
    chunk, todo := Fgets(s, p, ITER_BUF);
    OneAhead(s, p, ITER_BUF, all, Unread(chunk, todo));
    while chunk != ""
      invariant p + |chunk| <= |s| && |passed| <= stop && Ahead(s, p + |chunk|, ITER_BUF, todo)
      invariant PassedOn(all, Unread(chunk, todo), passed)
      decreases |s| - p, |chunk|
    {
      PassedOnStep(all, chunk, todo, passed);
      var l := Stripped(chunk);
      if l != "" {
        passed := passed + [l];
        if |passed| == stop + 1 {
          PassedUpTo(all, todo, passed, stop);
          return;
        }
      }
      p := p + |chunk|;
      ghost var left := todo;
      chunk, todo := Fgets(s, p, ITER_BUF);
      OneAhead(s, p, ITER_BUF, left, Unread(chunk, todo));
    }
    PassedUpTo(all, [], passed, stop);
  }

  class EventFile {
    var file: Option<string>
    var count: nat

    function Model(): Store
      reads this
    {
      Store(file, count)
    }

    /** `dd_storage_init` on the file the flash holds. */
    constructor (stored: Option<string>)
      ensures Model() == Recounted(Store(stored, 0))
    {
      file := stored;
      new;
      count := CountNewlines(Text(Model()));
    }

    method Boot()
      modifies this
      ensures Model() == Apply(old(Model()), DoBoot)
    {
      count := CountNewlines(Text(Model()));
    }

    method RotateBySize(renamed: bool)
      modifies this`file
      ensures file == if renamed && old(file).Some? then Some(Rotated(old(file).value)) else old(file)
    {
      if file.None? { return; }
      var s := file.value;
      var p := SkipLine(s, |s| - |s| / 2);
      var out := CopyFrom(s, p);
      if renamed { file := Some(out); }
    }

    method Append(line: string, renamed: bool) returns (status: Status)
      modifies this
      ensures Model() == EventStore.Append(old(Model()), line, renamed)
      ensures status == if Accepted(line) then Ok else InvalidArg
    {
      if |line| == 0 || |line| > LINE_MAX { return InvalidArg; }
      if file.Some? && |file.value| > MAX_BYTES {
        RotateBySize(renamed);
        count := CountNewlines(Text(Model()));
      }
      file := Some(Text(Model()) + line + "\n");
      count := count + 1;
      status := Ok;
    }

    method Iterate(stop: nat) returns (passed: seq<string>)
      ensures passed == UpTo(Iterated(Text(Model())), stop)
    {
      if file.None? { return []; }
      passed := PassOn(file.value, stop);
    }

    method Commit(out: string, kept: nat, dropped: nat, renamed: bool) returns (status: Status)
      modifies this
      ensures Model() == if dropped == 0 then old(Model())
                         else if kept == 0 then Store(None, 0)
                         else if renamed then Store(Some(out), kept)
                         else old(Model())
      ensures status == if dropped > 0 && kept > 0 && !renamed then Fail else Ok
    {
      status := Ok;
      if dropped == 0 { return; }
      if kept == 0 {
        file, count := None, 0;
      } else if renamed {
        file, count := Some(out), kept;
      } else {
        status := Fail;
      }
    }

    method DeleteByWorker(worker: nat, renamed: bool) returns (status: Status)
      modifies this
      ensures Model() == EventStore.DeleteByWorker(old(Model()), worker, renamed)
      ensures status.InvalidArg? <==> worker == 0
    {
      if worker == 0 { return InvalidArg; }
      if file.None? { return Ok; }
      var out, kept, dropped := CopyKept(file.value, (chunk: string) => MentionsWorker(chunk, worker));
      status := Commit(out, kept, dropped, renamed);
    }

    method DeleteOne(ts: int, mono: int, renamed: bool) returns (status: Status)
      modifies this
      ensures Model() == EventStore.DeleteOne(old(Model()), ts, mono, renamed)
      ensures status.Fail? ==> Model() == old(Model())
    {
      if file.None? { return Ok; }
      var out, kept, dropped := CopyKept(file.value, (chunk: string) => MentionsTimes(chunk, ts, mono));
      status := Commit(out, kept, dropped, renamed);
    }

    method RotateByTime(cutoff: int, renamed: bool) returns (status: Status)
      modifies this
      ensures Model() == EventStore.RotateByTime(old(Model()), cutoff, renamed)
      ensures status.InvalidArg? <==> cutoff <= 0
      ensures status.Fail? ==> Model() == old(Model())
    {
      if cutoff <= 0 { return InvalidArg; }
      if file.None? { return Ok; }
      var keep := FindKeepOffset(file.value, cutoff);
      if keep.None? {
        file, count := None, 0;
        return Ok;
      }
      if keep.value == 0 { return Ok; }
      var out := CopyFrom(file.value, keep.value);
      if !renamed { return Fail; }
      file := Some(out);
      count := CountNewlines(out);
      status := Ok;
    }

    method Wipe()
      modifies this
      ensures Model() == Apply(old(Model()), DoWipe)
    {
      file, count := None, 0;
    }
  }
}
