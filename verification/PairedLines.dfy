/** The segments that the paired view shows for a worker, told from the lines of the log alone: one for each IN, ended
    by the worker's next line if that is an OUT. */
module PairedLines {
  import opened Common
  import opened EventLines
  import P = Pairing
  import W = PairingPerWorker

  /** A dated line of the worker in the requested range. */
  predicate Mine(l: Line, w: nat, fromTs: int, toTs: int) {
    && l.kind.Some? && l.ts.Some? && WorkerId(l) == w
    && (fromTs == 0 || fromTs <= l.ts.value) && (toTs == 0 || l.ts.value < toTs)
  }

  /** Its wall-clock time, or its monotonic one in seconds where the wall clock was unknown. */
  function TimeOf(l: Line): int {
    if l.ts.Some? && l.ts.value > 0 then l.ts.value
    else if l.mono.Some? then TruncDiv(l.mono.value, 1_000_000)
    else 0
  }

  function SourceOf(l: Line): string {
    if l.src.Some? then l.src.value else "?"
  }

  /** The first 15 characters. */
  predicate Shortened(s: string, of: string) {
    s <= of && |s| == if |of| < 15 then |of| else 15
  }

  /** The worker's next line behind line `i`, or `n`. */
  function NextMine(lines: seq<Line>, i: nat, n: nat, w: nat, fromTs: int, toTs: int): (j: nat)
    requires i < n <= |lines|
    ensures i < j <= n && (j < n ==> Mine(lines[j], w, fromTs, toTs))
    ensures forall m :: i < m < j ==> !Mine(lines[m], w, fromTs, toTs)
    decreases n
  {
    if i + 1 == n then n
    else
      var j := NextMine(lines, i, n - 1, w, fromTs, toTs);
      if j < n - 1 || Mine(lines[n - 1], w, fromTs, toTs) then j else n
  }

  /** Line `i` opens a segment: it is an IN with a time. */
  predicate Opens(lines: seq<Line>, i: nat, w: nat, fromTs: int, toTs: int) {
    i < |lines| && Mine(lines[i], w, fromTs, toTs) && lines[i].kind == Some(In) && TimeOf(lines[i]) != 0
  }

  /** The lines that open a segment, in order. */
  function Openings(lines: seq<Line>, n: nat, w: nat, fromTs: int, toTs: int): (ins: seq<nat>)
    requires n <= |lines|
    ensures forall k :: 0 <= k < |ins| ==> ins[k] < n && Opens(lines, ins[k], w, fromTs, toTs)
    ensures forall k, m :: 0 <= k < m < |ins| ==> ins[k] < ins[m]
    ensures forall i: nat :: i < n && Opens(lines, i, w, fromTs, toTs) ==> i in ins
  {
    if n == 0 then []
    else
      var ins := Openings(lines, n - 1, w, fromTs, toTs);
      if Opens(lines, n - 1, w, fromTs, toTs) then ins + [n - 1] else ins
  }

  /** `seg` is what the IN on line `i` has become within the first `n` lines. */
  predicate Tells(seg: P.Segment, lines: seq<Line>, i: nat, n: nat, w: nat, fromTs: int, toTs: int)
    requires i < n <= |lines|
  {
    var j := NextMine(lines, i, n, w, fromTs, toTs);
    && seg.worker == w && seg.peer == lines[i].peer && seg.inTs == TimeOf(lines[i])
    && Shortened(seg.inSrc, SourceOf(lines[i]))
    && seg.end == (if j < n && lines[j].kind == Some(Out) then Some(P.End(TimeOf(lines[j]), SourceOf(lines[j]))) else None)
  }

  ghost predicate AllTell(segs: seq<P.Segment>, ins: seq<nat>, lines: seq<Line>, n: nat, w: nat, fromTs: int, toTs: int)
    requires n <= |lines| && forall k :: 0 <= k < |ins| ==> ins[k] < n
  {
    |segs| <= |ins| && forall k :: 0 <= k < |segs| ==> Tells(segs[k], lines, ins[k], n, w, fromTs, toTs)
  }

  /** What has been emitted is told by lines whose next line is known; the open IN is the last opening. */
  ghost predicate OwnTells(s: W.Own, lines: seq<Line>, n: nat, w: nat, fromTs: int, toTs: int)
    requires n <= |lines|
  {
    var ins := Openings(lines, n, w, fromTs, toTs);
    && |ins| == |s.emitted| + (if s.open.Some? then 1 else 0)
    && AllTell(s.emitted, ins, lines, n, w, fromTs, toTs)
    && (forall k :: 0 <= k < |s.emitted| ==> NextMine(lines, ins[k], n, w, fromTs, toTs) < n)
    && (s.open.Some? ==>
          Tells(P.StillOpen(s.open.value), lines, ins[|s.emitted|], n, w, fromTs, toTs)
          && NextMine(lines, ins[|s.emitted|], n, w, fromTs, toTs) == n)
  }

  /** The worker's next line stays the same as the log grows, once there is one. */
  lemma NextStays(lines: seq<Line>, i: nat, n: nat, w: nat, fromTs: int, toTs: int)
    requires i < n < |lines|
    ensures var j, k := NextMine(lines, i, n, w, fromTs, toTs), NextMine(lines, i, n + 1, w, fromTs, toTs);
            k == if j < n || Mine(lines[n], w, fromTs, toTs) then j else n + 1
  {
  }

  lemma EmittedStays(s: W.Own, lines: seq<Line>, n: nat, w: nat, fromTs: int, toTs: int)
    requires n < |lines| && OwnTells(s, lines, n, w, fromTs, toTs)
    ensures var ins := Openings(lines, n + 1, w, fromTs, toTs);
            && AllTell(s.emitted, ins, lines, n + 1, w, fromTs, toTs)
            && forall k :: 0 <= k < |s.emitted| ==> NextMine(lines, ins[k], n + 1, w, fromTs, toTs) < n + 1
  {
    var was, ins := Openings(lines, n, w, fromTs, toTs), Openings(lines, n + 1, w, fromTs, toTs);
    forall k | 0 <= k < |s.emitted|
      ensures Tells(s.emitted[k], lines, ins[k], n + 1, w, fromTs, toTs)
      ensures NextMine(lines, ins[k], n + 1, w, fromTs, toTs) < n + 1
    {
      assert Tells(s.emitted[k], lines, was[k], n, w, fromTs, toTs);
      NextStays(lines, was[k], n, w, fromTs, toTs);
    }
  }

  /** The open IN when the next line of the log comes: it ends the segment if it is the worker's. */
  lemma OpenGoesOn(o: P.Open, lines: seq<Line>, i: nat, n: nat, w: nat, fromTs: int, toTs: int)
    requires i < n < |lines| && Tells(P.StillOpen(o), lines, i, n, w, fromTs, toTs)
    requires NextMine(lines, i, n, w, fromTs, toTs) == n
    ensures if !Mine(lines[n], w, fromTs, toTs) then
              Tells(P.StillOpen(o), lines, i, n + 1, w, fromTs, toTs)
              && NextMine(lines, i, n + 1, w, fromTs, toTs) == n + 1
            else
              Tells(if lines[n].kind.value.In? then P.StillOpen(o) else P.Closed(o, lines[n]), lines, i, n + 1, w, fromTs, toTs)
              && NextMine(lines, i, n + 1, w, fromTs, toTs) == n
  {
    NextStays(lines, i, n, w, fromTs, toTs);
  }

  lemma Begins(lines: seq<Line>, n: nat, w: nat, fromTs: int, toTs: int)
    requires n < |lines| && Mine(lines[n], w, fromTs, toTs) && lines[n].kind == Some(In)
    ensures Tells(P.StillOpen(P.Opened(lines[n])), lines, n, n + 1, w, fromTs, toTs)
    ensures NextMine(lines, n, n + 1, w, fromTs, toTs) == n + 1 && P.At(lines[n]) == TimeOf(lines[n])
  {
  }

  lemma CountsIsMine(l: Line, w: nat, fromTs: int, toTs: int)
    ensures Mine(l, w, fromTs, toTs) <==> P.Counts(l, fromTs, toTs) && WorkerId(l) == w
    ensures Mine(l, w, fromTs, toTs) ==> l.kind.Some?
  {
  }

  lemma NotMineTells(s: W.Own, lines: seq<Line>, n: nat, w: nat, fromTs: int, toTs: int)
    requires n < |lines| && OwnTells(s, lines, n, w, fromTs, toTs) && !Mine(lines[n], w, fromTs, toTs)
    ensures OwnTells(s, lines, n + 1, w, fromTs, toTs)
  {
    hide Tells, Mine, NextMine;
    var was := Openings(lines, n, w, fromTs, toTs);
    assert Openings(lines, n + 1, w, fromTs, toTs) == was;
    EmittedStays(s, lines, n, w, fromTs, toTs);
    if s.open.Some? { OpenGoesOn(s.open.value, lines, was[|s.emitted|], n, w, fromTs, toTs); }
  }

  /** What has been emitted once the worker's line `n` has ended the open segment, if there is one. */
  function Ended(s: W.Own, l: Line): seq<P.Segment>
    requires l.kind.Some?
  {
    if s.open.None? then s.emitted
    else s.emitted + [if l.kind.value.In? then P.StillOpen(s.open.value) else P.Closed(s.open.value, l)]
  }

  lemma EndedTells(s: W.Own, lines: seq<Line>, n: nat, w: nat, fromTs: int, toTs: int)
    requires n < |lines| && OwnTells(s, lines, n, w, fromTs, toTs) && Mine(lines[n], w, fromTs, toTs)
    ensures var was, ins := Openings(lines, n, w, fromTs, toTs), Openings(lines, n + 1, w, fromTs, toTs);
            var emitted := Ended(s, lines[n]);
            && |emitted| == |was| && was <= ins
            && (forall k :: 0 <= k < |was| ==> Tells(emitted[k], lines, was[k], n + 1, w, fromTs, toTs))
            && (forall k :: 0 <= k < |was| ==> NextMine(lines, was[k], n + 1, w, fromTs, toTs) <= n)
  {
    hide Tells, Mine, NextMine;
    var was := Openings(lines, n, w, fromTs, toTs);
    EmittedStays(s, lines, n, w, fromTs, toTs);
    if s.open.Some? { OpenGoesOn(s.open.value, lines, was[|s.emitted|], n, w, fromTs, toTs); }
  }

  lemma MineTells(s: W.Own, lines: seq<Line>, n: nat, w: nat, fromTs: int, toTs: int)
    requires n < |lines| && OwnTells(s, lines, n, w, fromTs, toTs) && Mine(lines[n], w, fromTs, toTs)
    ensures var l := lines[n];
            OwnTells(W.Own(if l.kind == Some(In) && TimeOf(l) != 0 then Some(P.Opened(l)) else None, Ended(s, l)),
                     lines, n + 1, w, fromTs, toTs)
  {
    hide Tells, Mine, NextMine, TimeOf, Ended, P.StillOpen, P.Opened, Openings;
    var l := lines[n];
    CountsIsMine(l, w, fromTs, toTs);
    OpeningsNext(lines, n, w, fromTs, toTs);
    EndedTells(s, lines, n, w, fromTs, toTs);
    if l.kind == Some(In) { Begins(lines, n, w, fromTs, toTs); }
    assert AllTell(Ended(s, l), Openings(lines, n + 1, w, fromTs, toTs), lines, n + 1, w, fromTs, toTs);
  }

  lemma OpeningsNext(lines: seq<Line>, n: nat, w: nat, fromTs: int, toTs: int)
    requires n < |lines|
    ensures Openings(lines, n + 1, w, fromTs, toTs)
            == Openings(lines, n, w, fromTs, toTs) + if Opens(lines, n, w, fromTs, toTs) then [n] else []
  {
  }

  lemma OnOwnTells(s: W.Own, lines: seq<Line>, n: nat, w: nat, fromTs: int, toTs: int)
    requires n < |lines| && OwnTells(s, lines, n, w, fromTs, toTs)
    ensures OwnTells(W.OnOwn(s, lines[n], w, fromTs, toTs), lines, n + 1, w, fromTs, toTs)
  {
    hide OwnTells;
    if Mine(lines[n], w, fromTs, toTs) {
      MineTells(s, lines, n, w, fromTs, toTs);
    } else {
      NotMineTells(s, lines, n, w, fromTs, toTs);
    }
  }

  lemma NothingTold(lines: seq<Line>, w: nat, fromTs: int, toTs: int)
    ensures OwnTells(W.Own(None, []), lines, 0, w, fromTs, toTs)
  {
  }

  lemma {:induction false} OwnFoldTells(lines: seq<Line>, n: nat, w: nat, fromTs: int, toTs: int)
    requires n <= |lines|
    ensures OwnTells(W.OwnFold(lines, n, w, fromTs, toTs), lines, n, w, fromTs, toTs)
  {
    hide OwnTells, W.OnOwn;
    if n > 0 {
      OwnFoldTells(lines, n - 1, w, fromTs, toTs);
      OnOwnTells(W.OwnFold(lines, n - 1, w, fromTs, toTs), lines, n - 1, w, fromTs, toTs);
    } else {
      NothingTold(lines, w, fromTs, toTs);
    }
  }

  /** The paired view shows exactly one segment for each IN of a worker, in order: with the address, the time and the
      source of that line, and with the time and the source of the worker's next line if that is an OUT; otherwise it
      is open. */
  lemma SegmentsTell(lines: seq<Line>, w: nat, fromTs: int, toTs: int)
    requires W.Named(lines, fromTs, toTs) && W.Roomy(lines, fromTs, toTs) && w != 0
    ensures var shown := W.ForWorker(P.Segments(lines, fromTs, toTs), w);
            var ins := Openings(lines, |lines|, w, fromTs, toTs);
            |shown| == |ins|
            && forall k :: 0 <= k < |shown| ==> Tells(shown[k], lines, ins[k], |lines|, w, fromTs, toTs)
  {
    W.TableRefinesOwn(lines, w, fromTs, toTs);
    OwnFoldTells(lines, |lines|, w, fromTs, toTs);
  }
}
