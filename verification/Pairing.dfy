/** The paired view of components/http_app/dd_http_attendance.c: IN and OUT events folded into segments with
    sixteen slots for open INs. */
module Pairing {
  import opened Common
  import opened EventLines

  const MAX_OPEN := 16
  const SRC_MAX := 15

  /** `pair_open_t`; a slot is free when `inTs` is 0. */
  datatype Open = Open(worker: nat, peer: Option<Addr>, inTs: int, inMono: int, inSrc: string)

  const FREE := Open(0, None, 0, 0, "")

  /** An emitted segment; `end` is `None` for an open one. */
  datatype End = End(ts: int, src: string)
  datatype Segment = Segment(worker: nat, peer: Option<Addr>, inTs: int, inSrc: string, end: Option<End>)

  /** `evicted` counts INs overwritten because all slots were taken. */
  datatype State = State(opens: seq<Open>, emitted: seq<Segment>, evicted: nat)

  function Start(): State {
    State(seq(MAX_OPEN, i => FREE), [], 0)
  }

  // ---------- one line ----------

  /** Lines without a type or a time, or outside the requested range, are skipped. */
  predicate Counts(l: Line, fromTs: int, toTs: int) {
    && l.kind.Some? && l.ts.Some?
    && (fromTs == 0 || l.ts.value >= fromTs)
    && (toTs == 0 || l.ts.value < toTs)
  }

  /** The time of an event, from the monotonic clock when the wall clock was unknown. */
  function At(l: Line): int {
    if Ts(l) > 0 then Ts(l) else TruncDiv(Mono(l), 1000000)
  }

  function Src(l: Line): string {
    if l.src.Some? then l.src.value else "?"
  }

  function Clip(s: string): string {
    if |s| > SRC_MAX then s[..SRC_MAX] else s
  }

  function Opened(l: Line): Open {
    Open(WorkerId(l), l.peer, At(l), Mono(l), Clip(Src(l)))
  }

  function StillOpen(o: Open): Segment {
    Segment(o.worker, o.peer, o.inTs, o.inSrc, None)
  }

  function Closed(o: Open, l: Line): Segment {
    Segment(o.worker, o.peer, o.inTs, o.inSrc, Some(End(At(l), Src(l))))
  }

  /** An open IN belongs to a line: same worker id, or, for a line without one, same address. */
  predicate Belongs(o: Open, worker: nat, peer: Option<Addr>) {
    o.inTs != 0 && if worker != 0 then o.worker == worker else peer.Some? && o.peer == peer
  }

  function FindOpen(opens: seq<Open>, worker: nat, peer: Option<Addr>, i: nat := 0): (k: nat)
    requires i <= |opens|
    ensures i <= k <= |opens|
    ensures k < |opens| ==> Belongs(opens[k], worker, peer)
    ensures forall j :: i <= j < k ==> !Belongs(opens[j], worker, peer)
    decreases |opens| - i
  {
    if i == |opens| || Belongs(opens[i], worker, peer) then i else FindOpen(opens, worker, peer, i + 1)
  }

  function FindFree(opens: seq<Open>, i: nat := 0): (k: nat)
    requires i <= |opens|
    ensures i <= k <= |opens|
    ensures k < |opens| ==> opens[k].inTs == 0
    ensures forall j :: i <= j < k ==> opens[j].inTs != 0
    decreases |opens| - i
  {
    if i == |opens| || opens[i].inTs == 0 then i else FindFree(opens, i + 1)
  }

  /** The first of the oldest open INs among the first `n` slots. */
  function Oldest(opens: seq<Open>, n: nat): (k: nat)
    requires 0 < n <= |opens|
    ensures k < n
    ensures forall j :: 0 <= j < n ==> opens[k].inTs <= opens[j].inTs
  {
    if n == 1 then 0
    else
      var k := Oldest(opens, n - 1);
      if opens[n - 1].inTs < opens[k].inTs then n - 1 else k
  }

  /** Emit `seg` and free slot `k`. */
  function Release(s: State, k: nat, seg: Segment): State
    requires k < |s.opens|
  {
    s.(opens := s.opens[k := FREE], emitted := s.emitted + [seg])
  }

  /** Put an IN into a free slot, or over the oldest one. */
  function Place(s: State, o: Open): State
    requires |s.opens| == MAX_OPEN
  {
    var f := FindFree(s.opens);
    if f < |s.opens| then s.(opens := s.opens[f := o])
    else s.(opens := s.opens[Oldest(s.opens, MAX_OPEN) := o], evicted := s.evicted + 1)
  }

  /** `paired_iter_cb`. */
  function OnLine(s: State, l: Line, fromTs: int, toTs: int): (t: State)
    requires |s.opens| == MAX_OPEN
    ensures |t.opens| == MAX_OPEN
  {
    if !Counts(l, fromTs, toTs) then s
    else
      var k := FindOpen(s.opens, WorkerId(l), l.peer);
      if l.kind.value.In? then
        var r := if k < |s.opens| then Release(s, k, StillOpen(s.opens[k])) else s;
        Place(r, Opened(l))
      else if k < |s.opens| then Release(s, k, Closed(s.opens[k], l))
      else s
  }

  function Fold(lines: seq<Line>, n: nat, fromTs: int, toTs: int): (t: State)
    requires n <= |lines|
    ensures |t.opens| == MAX_OPEN
  {
    if n == 0 then Start() else OnLine(Fold(lines, n - 1, fromTs, toTs), lines[n - 1], fromTs, toTs)
  }

  /** The segments of the INs still open in the first `n` slots, in slot order. */
  function Flushed(opens: seq<Open>, n: nat): seq<Segment>
    requires n <= |opens|
  {
    if n == 0 then []
    else Flushed(opens, n - 1) + if opens[n - 1].inTs != 0 then [StillOpen(opens[n - 1])] else []
  }

  /** Everything the paired view emits for a log. */
  function Segments(lines: seq<Line>, fromTs: int, toTs: int): seq<Segment> {
    var s := Fold(lines, |lines|, fromTs, toTs);
    s.emitted + Flushed(s.opens, MAX_OPEN)
  }

  // ---------- the fold in place ----------

  class PairContext {
    const opens: array<Open>
    var emitted: seq<Segment>
    ghost var evicted: nat

    ghost predicate Valid() {
      opens.Length == MAX_OPEN
    }

    ghost function Model(): State
      reads this, opens
    {
      State(opens[..], emitted, evicted)
    }

    constructor ()
      ensures Valid() && fresh(opens) && Model() == Start()
    {
      opens := new Open[MAX_OPEN](_ => FREE);
      emitted := [];
      evicted := 0;
    }

    method FindOpenSlot(worker: nat, peer: Option<Addr>) returns (k: nat)
      requires Valid()
      ensures k == FindOpen(opens[..], worker, peer)
    {
      for i := 0 to MAX_OPEN
        invariant forall j :: 0 <= j < i ==> !Belongs(opens[j], worker, peer)
      {
        if opens[i].inTs == 0 { continue; }
        if worker != 0 && opens[i].worker == worker { return i; }
        if worker == 0 && peer.Some? && opens[i].peer.Some? && opens[i].peer.value == peer.value { return i; }
      }
      return MAX_OPEN;
    }

    method FindFreeSlot() returns (k: nat)
      requires Valid()
      ensures k == FindFree(opens[..])
    {
      for i := 0 to MAX_OPEN
        invariant forall j :: 0 <= j < i ==> opens[j].inTs != 0
      {
        if opens[i].inTs == 0 { return i; }
      }
      return MAX_OPEN;
    }

    method FindOldest() returns (k: nat)
      requires Valid()
      ensures k == Oldest(opens[..], MAX_OPEN)
    {
      k := 0;
      for i := 1 to MAX_OPEN
        invariant k == Oldest(opens[..], i)
      {
        if opens[i].inTs < opens[k].inTs { k := i; }
      }
    }

    /** `paired_iter_cb`. */
    method Iterate(l: Line, fromTs: int, toTs: int)
      requires Valid()
      modifies this, opens
      ensures Model() == OnLine(old(Model()), l, fromTs, toTs)
    {
      if l.kind.None? || l.ts.None? { return; }
      if (fromTs != 0 && l.ts.value < fromTs) || (toTs != 0 && l.ts.value >= toTs) { return; }
      var k := FindOpenSlot(WorkerId(l), l.peer);
      if l.kind.value.In? {
        if k < MAX_OPEN {
          emitted := emitted + [StillOpen(opens[k])];
          opens[k] := FREE;
        }
        var slot := FindFreeSlot();
        if slot == MAX_OPEN {
          slot := FindOldest();
          evicted := evicted + 1;
        }
        opens[slot] := Opened(l);
      } else if k < MAX_OPEN {
        emitted := emitted + [Closed(opens[k], l)];
        opens[k] := FREE;
      }
    }
  }

  /** The whole paired view: one pass over the log, then the INs still open. */
  method PairedView(lines: seq<Line>, fromTs: int, toTs: int) returns (segments: seq<Segment>)
    ensures segments == Segments(lines, fromTs, toTs)
  {
    var ctx := new PairContext();
    for i := 0 to |lines|
      invariant ctx.Valid() && fresh(ctx) && fresh(ctx.opens)
      invariant ctx.Model() == Fold(lines, i, fromTs, toTs)
    {
      ctx.Iterate(lines[i], fromTs, toTs);
    }
    segments := ctx.emitted;
    for i := 0 to MAX_OPEN
      invariant ctx.Model() == Fold(lines, |lines|, fromTs, toTs)
      invariant segments == ctx.emitted + Flushed(ctx.opens[..], i)
    {
      if ctx.opens[i].inTs != 0 {
        segments := segments + [StillOpen(ctx.opens[i])];
      }
    }
  }

  // ---------- no IN is lost ----------

  predicate IsIn(l: Line, fromTs: int, toTs: int) {
    Counts(l, fromTs, toTs) && l.kind.value.In?
  }

  function CountIns(lines: seq<Line>, n: nat, fromTs: int, toTs: int): nat
    requires n <= |lines|
  {
    if n == 0 then 0
    else CountIns(lines, n - 1, fromTs, toTs) + if IsIn(lines[n - 1], fromTs, toTs) then 1 else 0
  }

  /** INs whose derived time is 0 look like a free slot. */
  function CountTimeless(lines: seq<Line>, n: nat, fromTs: int, toTs: int): nat
    requires n <= |lines|
  {
    if n == 0 then 0
    else
      CountTimeless(lines, n - 1, fromTs, toTs)
      + if IsIn(lines[n - 1], fromTs, toTs) && At(lines[n - 1]) == 0 then 1 else 0
  }

  function Busy(opens: seq<Open>, n: nat): nat
    requires n <= |opens|
  {
    if n == 0 then 0 else Busy(opens, n - 1) + if opens[n - 1].inTs != 0 then 1 else 0
  }

  lemma {:induction false} BusyUpdate(opens: seq<Open>, n: nat, k: nat, o: Open)
    requires n <= |opens| && k < |opens|
    ensures Busy(opens[k := o], n) == Busy(opens, n)
            + (if k < n && o.inTs != 0 then 1 else 0) - (if k < n && opens[k].inTs != 0 then 1 else 0)
  {
    if n > 0 { BusyUpdate(opens, n - 1, k, o); }
  }

  lemma {:induction false} FlushedIsBusy(opens: seq<Open>, n: nat)
    requires n <= |opens|
    ensures |Flushed(opens, n)| == Busy(opens, n)
  {
    if n > 0 { FlushedIsBusy(opens, n - 1); }
  }

  lemma OnLineBalance(s: State, l: Line, fromTs: int, toTs: int)
    requires |s.opens| == MAX_OPEN
    ensures var t := OnLine(s, l, fromTs, toTs);
            |t.emitted| + Busy(t.opens, MAX_OPEN) + t.evicted
            == |s.emitted| + Busy(s.opens, MAX_OPEN) + s.evicted
               + if IsIn(l, fromTs, toTs) && At(l) != 0 then 1 else 0
  {
    if Counts(l, fromTs, toTs) {
      var k := FindOpen(s.opens, WorkerId(l), l.peer);
      if k < |s.opens| { BusyUpdate(s.opens, MAX_OPEN, k, FREE); }
      if l.kind.value.In? {
        var r := if k < |s.opens| then Release(s, k, StillOpen(s.opens[k])) else s;
        var f := FindFree(r.opens);
        BusyUpdate(r.opens, MAX_OPEN, if f < |r.opens| then f else Oldest(r.opens, MAX_OPEN), Opened(l));
      }
    }
  }

  lemma {:induction false} FoldBalance(lines: seq<Line>, n: nat, fromTs: int, toTs: int)
    requires n <= |lines|
    ensures var s := Fold(lines, n, fromTs, toTs);
            CountIns(lines, n, fromTs, toTs)
            == |s.emitted| + Busy(s.opens, MAX_OPEN) + s.evicted + CountTimeless(lines, n, fromTs, toTs)
  {
    if n > 0 {
      FoldBalance(lines, n - 1, fromTs, toTs);
      OnLineBalance(Fold(lines, n - 1, fromTs, toTs), lines[n - 1], fromTs, toTs);
    } else {
      NothingBusy(MAX_OPEN);
    }
  }

  lemma {:induction false} NothingBusy(n: nat)
    requires n <= MAX_OPEN
    ensures Busy(Start().opens, n) == 0
  {
    if n > 0 { NothingBusy(n - 1); }
  }

  /** Conservation, for any log: each IN becomes one emitted segment, unless it was overwritten by the eviction
      of the oldest slot or its derived time is 0. */
  lemma EveryInIsEmitted(lines: seq<Line>, fromTs: int, toTs: int)
    ensures CountIns(lines, |lines|, fromTs, toTs)
            == |Segments(lines, fromTs, toTs)| + Fold(lines, |lines|, fromTs, toTs).evicted
               + CountTimeless(lines, |lines|, fromTs, toTs)
  {
    FoldBalance(lines, |lines|, fromTs, toTs);
    FlushedIsBusy(Fold(lines, |lines|, fromTs, toTs).opens, MAX_OPEN);
  }

  /** If no slot is free for an IN, it replaces an open IN that is no younger than any other; nothing is emitted. */
  lemma EvictsOldest(s: State, l: Line, fromTs: int, toTs: int) returns (k: nat)
    requires |s.opens| == 16 && IsIn(l, fromTs, toTs) && FindOpen(s.opens, WorkerId(l), l.peer) == |s.opens|
    requires forall i :: 0 <= i < |s.opens| ==> s.opens[i].inTs != 0
    ensures k < |s.opens| && forall i :: 0 <= i < |s.opens| ==> s.opens[k].inTs <= s.opens[i].inTs
    ensures var t := OnLine(s, l, fromTs, toTs);
            t.emitted == s.emitted && t.evicted == s.evicted + 1
            && forall i :: 0 <= i < |s.opens| && i != k ==> t.opens[i] == s.opens[i]
  {
    k := Oldest(s.opens, MAX_OPEN);
  }
}
