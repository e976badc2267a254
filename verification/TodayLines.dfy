/** Today's summary of a worker, told from the lines of the log alone: who came in and went out, and for how long. */
module TodayLines {
  import opened Common
  import opened EventLines
  import opened PairedLines
  import T = TodayView

  /** A dated line of the worker from midnight on. */
  predicate OfToday(l: Line, w: nat, midnight: int) {
    l.kind.Some? && l.ts.Some? && midnight <= l.ts.value && WorkerId(l) == w
  }

  /** The worker's latest line among the first `n`. */
  function Latest(lines: seq<Line>, n: nat, w: nat, midnight: int): (i: Option<nat>)
    requires n <= |lines|
    ensures i.Some? ==> i.value < n && OfToday(lines[i.value], w, midnight)
    ensures forall m :: (if i.Some? then i.value + 1 else 0) <= m < n ==> !OfToday(lines[m], w, midnight)
  {
    if n == 0 then None
    else if OfToday(lines[n - 1], w, midnight) then Some(n - 1)
    else Latest(lines, n - 1, w, midnight)
  }

  /** The worker's first line among the first `n`. */
  function Earliest(lines: seq<Line>, n: nat, w: nat, midnight: int): (i: Option<nat>)
    requires n <= |lines|
    ensures i.Some? ==> i.value < n && OfToday(lines[i.value], w, midnight)
    ensures forall m :: 0 <= m < (if i.Some? then i.value else n) ==> !OfToday(lines[m], w, midnight)
  {
    if n == 0 then None
    else
      var i := Earliest(lines, n - 1, w, midnight);
      if i.Some? then i else if OfToday(lines[n - 1], w, midnight) then Some(n - 1) else None
  }

  /** The worker is in after the first `n` lines: its latest line is an IN. */
  predicate InAfter(lines: seq<Line>, n: nat, w: nat, midnight: int)
    requires n <= |lines|
  {
    var i := Latest(lines, n, w, midnight);
    i.Some? && lines[i.value].kind == Some(In)
  }

  /** When it came in. */
  function Since(lines: seq<Line>, n: nat, w: nat, midnight: int): int
    requires n <= |lines| && InAfter(lines, n, w, midnight)
  {
    lines[Latest(lines, n, w, midnight).value].ts.value
  }

  /** Line `j` is an OUT of the worker, who is in. */
  predicate Leaves(lines: seq<Line>, j: nat, w: nat, midnight: int)
    requires j < |lines|
  {
    OfToday(lines[j], w, midnight) && lines[j].kind == Some(Out) && InAfter(lines, j, w, midnight)
  }

  /** An interval counts with its seconds if it is longer than nothing and shorter than a day. */
  function Seconds(since: int, until: int): nat {
    if 0 < until - since < 86400 then until - since else 0
  }

  /** The number of stays that ended within the first `n` lines, and their seconds. */
  function Stays(lines: seq<Line>, n: nat, w: nat, midnight: int): nat
    requires n <= |lines|
  {
    if n == 0 then 0
    else Stays(lines, n - 1, w, midnight) + if Leaves(lines, n - 1, w, midnight) then 1 else 0
  }

  function Worked(lines: seq<Line>, n: nat, w: nat, midnight: int): nat
    requires n <= |lines|
  {
    if n == 0 then 0
    else
      Worked(lines, n - 1, w, midnight)
      + if Leaves(lines, n - 1, w, midnight) then
          Seconds(Since(lines, n - 1, w, midnight), lines[n - 1].ts.value)
        else 0
  }

  /** The source of the latest IN that names one. */
  function InSource(lines: seq<Line>, n: nat, w: nat, midnight: int): string
    requires n <= |lines|
  {
    if n == 0 then ""
    else
      var l := lines[n - 1];
      if OfToday(l, w, midnight) && l.kind == Some(In) && l.src.Some? then l.src.value
      else InSource(lines, n - 1, w, midnight)
  }

  /** The times differ by less than 2^31 seconds. */
  predicate Near(since: int, until: int) {
    -0x8000_0000 <= until - since < 0x8000_0000
  }

  ghost predicate AllNear(lines: seq<Line>, w: nat, midnight: int) {
    forall j :: 0 <= j < |lines| && Leaves(lines, j, w, midnight) ==>
      Near(Since(lines, j, w, midnight), lines[j].ts.value)
  }

  lemma CreditIsSeconds(since: int, until: int)
    requires Near(since, until)
    ensures T.Credit(since, until) == Seconds(since, until)
  {
  }

  lemma Remainder(n: int, q: int, r: int)
    requires n == 0x1_0000_0000 * q + r && 0 <= r < 0x1_0000_0000
    ensures n % 0x1_0000_0000 == r
  {
  }

  lemma CastIs(d: int)
    ensures var m := d % 0x1_0000_0000; T.ToInt32(d) == if m < 0x8000_0000 then m else m - 0x1_0000_0000
  {
    var q, m := d / 0x1_0000_0000, d % 0x1_0000_0000;
    if m < 0x8000_0000 {
      Remainder(d + 0x8000_0000, q, m + 0x8000_0000);
    } else {
      Remainder(d + 0x8000_0000, q + 1, m - 0x8000_0000);
    }
  }

  /** Further apart, the seconds are counted modulo 2^32. */
  lemma CreditWraps(since: int, until: int)
    ensures T.Credit(since, until) == var d := (until - since) % 0x1_0000_0000; if d < 86400 then d else 0
  {
    hide T.ToInt32;
    CastIs(until - since);
  }

  ghost predicate Tells(e: Option<T.Today>, lines: seq<Line>, n: nat, w: nat, midnight: int)
    requires n <= |lines|
  {
    && (e.Some? <==> Latest(lines, n, w, midnight).Some?)
    && (e.None? ==> Stays(lines, n, w, midnight) == Worked(lines, n, w, midnight) == 0)
    && (e.Some? ==>
          var x, i := e.value, Earliest(lines, n, w, midnight);
          && i.Some? && x.worker == w && x.peer == lines[i.value].peer
          && x.currentlyIn == InAfter(lines, n, w, midnight)
          && x.inTs == (if InAfter(lines, n, w, midnight) then Since(lines, n, w, midnight) else 0)
          && x.segments == Stays(lines, n, w, midnight)
          && x.total == Worked(lines, n, w, midnight))
    && (if e.Some? then Shortened(e.value.inSrc, InSource(lines, n, w, midnight)) else InSource(lines, n, w, midnight) == "")
  }

  lemma {:induction false} OwnTells(lines: seq<Line>, n: nat, w: nat, midnight: int)
    requires n <= |lines| && midnight > 0 && AllNear(lines, w, midnight)
    ensures Tells(T.Own(lines, n, w, midnight), lines, n, w, midnight)
  {
    if n > 0 {
      OwnTells(lines, n - 1, w, midnight);
      if Leaves(lines, n - 1, w, midnight) {
        CreditIsSeconds(Since(lines, n - 1, w, midnight), lines[n - 1].ts.value);
      }
    }
  }

  /** What is shown of each worker: its stays since midnight, each from an IN to its next line if that is an OUT, and
      their seconds, the stay that still lasts included. */
  lemma SummaryTells(lines: seq<Line>, midnight: int, now: int, k: nat)
    requires T.Named(lines, midnight) && midnight > 0 && k < |T.Fold(lines, |lines|, midnight)|
    requires var w := T.Fold(lines, |lines|, midnight)[k].worker;
             AllNear(lines, w, midnight)
             && (InAfter(lines, |lines|, w, midnight) ==> Near(Since(lines, |lines|, w, midnight), now))
    ensures var n, e := |lines|, T.Shown(T.Fold(lines, |lines|, midnight)[k], now);
            var first := Earliest(lines, n, e.worker, midnight);
            && first.Some? && e.peer == lines[first.value].peer
            && e.segments == Stays(lines, n, e.worker, midnight)
            && e.total == Worked(lines, n, e.worker, midnight)
                          + (if InAfter(lines, n, e.worker, midnight) then Seconds(Since(lines, n, e.worker, midnight), now)
                             else 0)
            && (e.currentlyIn <==> InAfter(lines, n, e.worker, midnight))
            && Shortened(e.inSrc, InSource(lines, n, e.worker, midnight))
  {
    var e := T.Fold(lines, |lines|, midnight)[k];
    T.SummaryIsOwn(lines, midnight, k);
    OwnTells(lines, |lines|, e.worker, midnight);
    if InAfter(lines, |lines|, e.worker, midnight) {
      CreditIsSeconds(Since(lines, |lines|, e.worker, midnight), now);
    }
  }
}
