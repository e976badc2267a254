/** The paired view when some lines name no worker, as they do once the registry is full: such lines are matched by
    their address, and the view is the one of the log in which every address has a number. */
module PairedByAddress {
  import opened Common
  import opened EventLines
  import opened Pairing
  import W = PairingPerWorker
  import L = PairedLines

  /** `id` is the worker id on the lines of an address, 0 if they have none; `tag` is a number for it. */
  datatype Names = Names(id: Addr -> nat, tag: Addr -> nat)

  /** A dated line of the range is the address's. */
  ghost predicate Occurs(lines: seq<Line>, a: Addr, fromTs: int, toTs: int) {
    exists i :: 0 <= i < |lines| && Counts(lines[i], fromTs, toTs) && lines[i].peer == Some(a)
  }

  /** Every line has an address and its worker id; the numbers are different, and the id where there is one. */
  ghost predicate Fits(lines: seq<Line>, names: Names, fromTs: int, toTs: int) {
    && (forall i :: 0 <= i < |lines| && Counts(lines[i], fromTs, toTs) ==>
          lines[i].peer.Some? && WorkerId(lines[i]) == names.id(lines[i].peer.value))
    && (forall a :: Occurs(lines, a, fromTs, toTs) ==>
          0 < names.tag(a) < 65536 && (names.id(a) != 0 ==> names.tag(a) == names.id(a)))
    && (forall a, b :: Occurs(lines, a, fromTs, toTs) && Occurs(lines, b, fromTs, toTs) && names.tag(a) == names.tag(b)
                       ==> a == b)
  }

  function Tagged(l: Line, names: Names): Line {
    if l.peer.Some? then l.(workerId := Some(names.tag(l.peer.value))) else l
  }

  function TaggedLog(lines: seq<Line>, names: Names): (tagged: seq<Line>)
    ensures |tagged| == |lines| && forall i :: 0 <= i < |lines| ==> tagged[i] == Tagged(lines[i], names)
  {
    seq(|lines|, i requires 0 <= i < |lines| => Tagged(lines[i], names))
  }

  // ---------- the two folds side by side ----------

  /** The surroundings of the comparison. */
  datatype Scene = Scene(lines: seq<Line>, names: Names, fromTs: int, toTs: int) {
    ghost predicate Knows(a: Addr) {
      Occurs(lines, a, fromTs, toTs)
    }

    ghost predicate Ok() {
      Fits(lines, names, fromTs, toTs)
    }

    ghost predicate SameOpen(o: Open, p: Open) {
      o.inTs == p.inTs
      && (o.inTs != 0 ==>
            o.peer.Some? && Knows(o.peer.value) && o.worker == names.id(o.peer.value)
            && p == o.(worker := names.tag(o.peer.value)))
    }

    ghost predicate SameSegment(x: Segment, y: Segment) {
      x.peer.Some? && Knows(x.peer.value) && x.worker == names.id(x.peer.value)
      && y == x.(worker := names.tag(x.peer.value))
    }

    ghost predicate SameOpens(x: seq<Open>, y: seq<Open>) {
      |x| == |y| && forall i :: 0 <= i < |x| ==> SameOpen(x[i], y[i])
    }

    ghost predicate SameSegments(x: seq<Segment>, y: seq<Segment>) {
      |x| == |y| && forall i :: 0 <= i < |x| ==> SameSegment(x[i], y[i])
    }

    ghost predicate Same(s: State, t: State) {
      SameOpens(s.opens, t.opens) && SameSegments(s.emitted, t.emitted)
    }
  }

  /** The slots that belong to a line are the same. */
  lemma SameBelongs(c: Scene, o: Open, p: Open, a: Addr)
    requires c.Ok() && c.SameOpen(o, p) && c.Knows(a)
    ensures Belongs(o, c.names.id(a), Some(a)) <==> Belongs(p, c.names.tag(a), Some(a))
  {
  }

  lemma SameFound(c: Scene, x: seq<Open>, y: seq<Open>, a: Addr)
    requires c.Ok() && c.SameOpens(x, y) && c.Knows(a)
    ensures FindOpen(x, c.names.id(a), Some(a)) == FindOpen(y, c.names.tag(a), Some(a))
  {
    forall i | 0 <= i < |x|
      ensures Belongs(x[i], c.names.id(a), Some(a)) <==> Belongs(y[i], c.names.tag(a), Some(a))
    {
      SameBelongs(c, x[i], y[i], a);
    }
  }

  lemma {:induction false} SameOldest(c: Scene, x: seq<Open>, y: seq<Open>, n: nat)
    requires c.SameOpens(x, y) && 0 < n <= |x|
    ensures Oldest(x, n) == Oldest(y, n)
  {
    if n > 1 { SameOldest(c, x, y, n - 1); }
  }

  lemma SamePlace(c: Scene, s: State, t: State, o: Open, p: Open)
    requires c.Same(s, t) && c.SameOpen(o, p) && |s.opens| == MAX_OPEN
    ensures c.Same(Place(s, o), Place(t, p))
  {
    SameOldest(c, s.opens, t.opens, MAX_OPEN);
  }

  lemma SameRelease(c: Scene, s: State, t: State, k: nat, x: Segment, y: Segment)
    requires c.Same(s, t) && c.SameSegment(x, y) && k < |s.opens|
    ensures c.Same(Release(s, k, x), Release(t, k, y)) && |Release(s, k, x).opens| == |s.opens|
  {
  }

  lemma TagCounts(c: Scene, l: Line)
    ensures Counts(Tagged(l, c.names), c.fromTs, c.toTs) <==> Counts(l, c.fromTs, c.toTs)
  {
  }

  lemma SameOnLine(c: Scene, s: State, t: State, i: nat)
    requires c.Ok() && c.Same(s, t) && |s.opens| == MAX_OPEN && i < |c.lines|
    ensures c.Same(OnLine(s, c.lines[i], c.fromTs, c.toTs), OnLine(t, Tagged(c.lines[i], c.names), c.fromTs, c.toTs))
  {
    hide Place, Release, FindOpen, Occurs;
    var l, m := c.lines[i], Tagged(c.lines[i], c.names);
    TagCounts(c, l);
    if Counts(l, c.fromTs, c.toTs) {
      var a := l.peer.value;
      LineKnown(c, i);
      SameFound(c, s.opens, t.opens, a);
      var k := FindOpen(s.opens, WorkerId(l), l.peer);
      SlotFound(s.opens, WorkerId(l), l.peer);
      if l.kind.value.In? {
        if k < |s.opens| {
          SameRelease(c, s, t, k, StillOpen(s.opens[k]), StillOpen(t.opens[k]));
          SamePlace(c, Release(s, k, StillOpen(s.opens[k])), Release(t, k, StillOpen(t.opens[k])), Opened(l), Opened(m));
        } else {
          SamePlace(c, s, t, Opened(l), Opened(m));
        }
      } else if k < |s.opens| {
        SameRelease(c, s, t, k, Closed(s.opens[k], l), Closed(t.opens[k], m));
      }
    }
  }

  lemma SlotFound(opens: seq<Open>, worker: nat, peer: Option<Addr>)
    ensures var k := FindOpen(opens, worker, peer); k < |opens| ==> opens[k].inTs != 0
  {
  }

  lemma LineKnown(c: Scene, i: nat)
    requires c.Ok() && i < |c.lines| && Counts(c.lines[i], c.fromTs, c.toTs)
    ensures var l := c.lines[i];
            l.peer.Some? && c.Knows(l.peer.value) && WorkerId(l) == c.names.id(l.peer.value)
            && WorkerId(Tagged(l, c.names)) == c.names.tag(l.peer.value)
  {
  }

  lemma {:induction false} SameFold(c: Scene, n: nat)
    requires c.Ok() && n <= |c.lines|
    ensures c.Same(Fold(c.lines, n, c.fromTs, c.toTs), Fold(TaggedLog(c.lines, c.names), n, c.fromTs, c.toTs))
  {
    if n > 0 {
      SameFold(c, n - 1);
      var tagged := TaggedLog(c.lines, c.names);
      SameOnLine(c, Fold(c.lines, n - 1, c.fromTs, c.toTs), Fold(tagged, n - 1, c.fromTs, c.toTs), n - 1);
    }
  }

  lemma {:induction false} SameFlushed(c: Scene, x: seq<Open>, y: seq<Open>, n: nat)
    requires c.SameOpens(x, y) && n <= |x|
    ensures c.SameSegments(Flushed(x, n), Flushed(y, n))
  {
    if n > 0 {
      SameFlushed(c, x, y, n - 1);
      assert c.SameOpen(x[n - 1], y[n - 1]);
    }
  }

  /** The segments of one address, in order. */
  function ForPeer(segments: seq<Segment>, a: Addr): seq<Segment> {
    if segments == [] then []
    else
      var last := segments[|segments| - 1];
      ForPeer(segments[..|segments| - 1], a) + if last.peer == Some(a) then [last] else []
  }

  lemma {:induction false} SameForPeer(c: Scene, x: seq<Segment>, y: seq<Segment>, a: Addr)
    requires c.Ok() && c.SameSegments(x, y) && c.Knows(a)
    ensures var mine, theirs := ForPeer(x, a), W.ForWorker(y, c.names.tag(a));
            |mine| == |theirs|
            && forall k :: 0 <= k < |mine| ==>
                 mine[k].worker == c.names.id(a) && theirs[k] == mine[k].(worker := c.names.tag(a))
  {
    if x != [] {
      var n := |x| - 1;
      assert c.SameSegments(x[..n], y[..n]);
      SameForPeer(c, x[..n], y[..n], a);
      assert c.SameSegment(x[n], y[n]);
    }
  }

  /** With or without worker ids on its lines, each address gets its own segments: one for each of its INs, ended by
      the next line of that address if it is an OUT. */
  lemma AddressesTell(c: Scene, a: Addr)
    requires c.Ok() && c.Knows(a) && W.Roomy(TaggedLog(c.lines, c.names), c.fromTs, c.toTs)
    ensures var shown := ForPeer(Segments(c.lines, c.fromTs, c.toTs), a);
            var tagged, n, tag := TaggedLog(c.lines, c.names), |c.lines|, c.names.tag(a);
            var ins := L.Openings(tagged, n, tag, c.fromTs, c.toTs);
            |shown| == |ins|
            && forall k :: 0 <= k < |shown| ==>
                 shown[k].worker == c.names.id(a)
                 && L.Tells(shown[k].(worker := tag), tagged, ins[k], n, tag, c.fromTs, c.toTs)
  {
    var tagged, n := TaggedLog(c.lines, c.names), |c.lines|;
    SameFold(c, n);
    var s, t := Fold(c.lines, n, c.fromTs, c.toTs), Fold(tagged, n, c.fromTs, c.toTs);
    SameFlushed(c, s.opens, t.opens, MAX_OPEN);
    assert c.SameSegments(Segments(c.lines, c.fromTs, c.toTs), Segments(tagged, c.fromTs, c.toTs));
    SameForPeer(c, Segments(c.lines, c.fromTs, c.toTs), Segments(tagged, c.fromTs, c.toTs), a);
    TaggedNamed(c);
    L.SegmentsTell(tagged, c.names.tag(a), c.fromTs, c.toTs);
  }

  lemma TaggedNamed(c: Scene)
    requires c.Ok()
    ensures W.Named(TaggedLog(c.lines, c.names), c.fromTs, c.toTs)
  {
    var tagged := TaggedLog(c.lines, c.names);
    forall i | 0 <= i < |tagged| && Counts(tagged[i], c.fromTs, c.toTs)
      ensures WorkerId(tagged[i]) != 0
    {
      TagCounts(c, c.lines[i]);
      LineKnown(c, i);
    }
  }
}
