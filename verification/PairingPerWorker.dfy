/** The sixteen-slot pairing fold gives every worker the segments of its own events. */
module PairingPerWorker {
  import opened Common
  import opened EventLines
  import opened Pairing

  /** The pairing of one worker's events, without any table. */
  datatype Own = Own(open: Option<Open>, emitted: seq<Segment>)

  function OnOwn(s: Own, l: Line, worker: nat, fromTs: int, toTs: int): Own {
    if !Counts(l, fromTs, toTs) || WorkerId(l) != worker then s
    else if l.kind.value.In? then
      Own(if At(l) != 0 then Some(Opened(l)) else None,
          if s.open.Some? then s.emitted + [StillOpen(s.open.value)] else s.emitted)
    else if s.open.Some? then Own(None, s.emitted + [Closed(s.open.value, l)])
    else s
  }

  function OwnFold(lines: seq<Line>, n: nat, worker: nat, fromTs: int, toTs: int): Own
    requires n <= |lines|
  {
    if n == 0 then Own(None, []) else OnOwn(OwnFold(lines, n - 1, worker, fromTs, toTs), lines[n - 1], worker, fromTs, toTs)
  }

  /** What worker `w`'s events alone amount to. */
  function OwnSegments(lines: seq<Line>, worker: nat, fromTs: int, toTs: int): seq<Segment> {
    var s := OwnFold(lines, |lines|, worker, fromTs, toTs);
    s.emitted + if s.open.Some? then [StillOpen(s.open.value)] else []
  }

  /** The segments of one worker, in order. */
  function ForWorker(segments: seq<Segment>, worker: nat): seq<Segment> {
    if segments == [] then []
    else
      var last := segments[|segments| - 1];
      ForWorker(segments[..|segments| - 1], worker) + if last.worker == worker then [last] else []
  }

  lemma ForWorkerGrows(segments: seq<Segment>, s: Segment, worker: nat)
    ensures ForWorker(segments + [s], worker)
            == ForWorker(segments, worker) + if s.worker == worker then [s] else []
  {
    assert (segments + [s])[..|segments|] == segments;
  }

  // ---------- what is assumed of the log ----------

  /** Every line that counts names a worker. */
  ghost predicate Named(lines: seq<Line>, fromTs: int, toTs: int) {
    forall i :: 0 <= i < |lines| && Counts(lines[i], fromTs, toTs) ==> WorkerId(lines[i]) != 0
  }

  /** The other workers that are in before line `n`. */
  ghost function OthersIn(lines: seq<Line>, n: nat, worker: nat, fromTs: int, toTs: int): set<nat>
    requires n <= |lines|
  {
    set w: nat | w < 65536 && w != worker && OwnFold(lines, n, w, fromTs, toTs).open.Some?
  }

  /** Whenever a worker comes in, fewer than sixteen others are in. */
  ghost predicate Roomy(lines: seq<Line>, fromTs: int, toTs: int) {
    forall i :: 0 <= i < |lines| && IsIn(lines[i], fromTs, toTs) ==>
      |OthersIn(lines, i, WorkerId(lines[i]), fromTs, toTs)| < MAX_OPEN
  }

  // ---------- the table represents all the workers ----------

  /** Slot `k` is worker `w`'s open IN, if it has one. */
  predicate Shows(opens: seq<Open>, worker: nat, open: Option<Open>) {
    var k := FindOpen(opens, worker, None);
    if k < |opens| then open == Some(opens[k]) else open == None
  }

  ghost predicate OnePerWorker(opens: seq<Open>) {
    && (forall i :: 0 <= i < |opens| && opens[i].inTs != 0 ==> 0 < opens[i].worker < 65536)
    && (forall i, j :: 0 <= i < j < |opens| && opens[i].inTs != 0 && opens[j].inTs != 0
                       ==> opens[i].worker != opens[j].worker)
  }

  ghost predicate Represents(s: State, lines: seq<Line>, n: nat, fromTs: int, toTs: int)
    requires n <= |lines|
  {
    && |s.opens| == MAX_OPEN
    && OnePerWorker(s.opens)
    && forall w: nat :: w != 0 ==> Agrees(s, w, OwnFold(lines, n, w, fromTs, toTs))
  }

  /** The table and the emitted segments are right for worker `w`. */
  predicate Agrees(s: State, w: nat, own: Own) {
    Shows(s.opens, w, own.open) && ForWorker(s.emitted, w) == own.emitted
  }

  /** With one slot per worker, the slot found for a worker is the only one. */
  lemma OnlySlot(opens: seq<Open>, k: nat)
    requires OnePerWorker(opens) && k < |opens| && opens[k].inTs != 0
    ensures FindOpen(opens, opens[k].worker, None) == k
  {
    assert Belongs(opens[k], opens[k].worker, None);
  }

  lemma PeerIrrelevant(opens: seq<Open>, worker: nat, peer: Option<Addr>, i: nat)
    requires worker != 0 && i <= |opens|
    ensures FindOpen(opens, worker, peer, i) == FindOpen(opens, worker, None, i)
    decreases |opens| - i
  {
    if i < |opens| && !Belongs(opens[i], worker, peer) {
      PeerIrrelevant(opens, worker, peer, i + 1);
    }
  }

  /** Replacing slot `k` changes only the workers of its old and new contents. */
  lemma ShowsUpdate(opens: seq<Open>, k: nat, o: Open, w: nat)
    requires OnePerWorker(opens) && k < |opens| && w != 0
    requires OnePerWorker(opens[k := o])
    ensures var other := (opens[k].inTs == 0 || opens[k].worker != w) && (o.inTs == 0 || o.worker != w);
            var f, g := FindOpen(opens, w, None), FindOpen(opens[k := o], w, None);
            && (other ==> f == g && f != k)
            && (o.inTs != 0 && o.worker == w ==> g == k)
            && ((o.inTs == 0 || o.worker != w) && opens[k].inTs != 0 && opens[k].worker == w ==> g == |opens|)
  {
    var news := opens[k := o];
    var f, g := FindOpen(opens, w, None), FindOpen(news, w, None);
    assert forall j :: 0 <= j < |opens| && j != k ==> news[j] == opens[j];
    if o.inTs != 0 && o.worker == w { OnlySlot(news, k); }
    else if opens[k].inTs != 0 && opens[k].worker == w { OnlySlot(opens, k); }
  }

  lemma {:induction false} WorkerCount(opens: seq<Open>, n: nat)
    requires n <= |opens| && OnePerWorker(opens) && forall i :: 0 <= i < n ==> opens[i].inTs != 0
    ensures |set i | 0 <= i < n :: opens[i].worker| == n
  {
    if n > 0 {
      WorkerCount(opens, n - 1);
      var before := set i | 0 <= i < n - 1 :: opens[i].worker;
      assert (set i | 0 <= i < n :: opens[i].worker) == before + {opens[n - 1].worker};
    }
  }

  /** A full table means sixteen other workers are in. */
  lemma FullMeansSixteen(opens: seq<Open>, lines: seq<Line>, n: nat, v: nat, fromTs: int, toTs: int)
    requires n <= |lines| && |opens| == MAX_OPEN && OnePerWorker(opens)
    requires forall i :: 0 <= i < |opens| ==> opens[i].inTs != 0 && opens[i].worker != v
    requires forall w: nat :: w != 0 && w != v ==> Shows(opens, w, OwnFold(lines, n, w, fromTs, toTs).open)
    ensures |OthersIn(lines, n, v, fromTs, toTs)| >= MAX_OPEN
  {
    var workers := set i | 0 <= i < |opens| :: opens[i].worker;
    forall w | w in workers
      ensures w in OthersIn(lines, n, v, fromTs, toTs)
    {
      var i :| 0 <= i < |opens| && opens[i].worker == w;
      OnlySlot(opens, i);
      assert Shows(opens, w, OwnFold(lines, n, w, fromTs, toTs).open);
    }
    WorkerCount(opens, MAX_OPEN);
    SubsetSize(workers, OthersIn(lines, n, v, fromTs, toTs));
  }

  /** Freeing the slot of worker `v` and emitting its segment. */
  lemma ReleaseShows(s: State, k: nat, seg: Segment, w: nat)
    requires OnePerWorker(s.opens) && k < |s.opens| && s.opens[k].inTs != 0 && seg.worker == s.opens[k].worker && w != 0
    ensures var t := Release(s, k, seg);
            && OnePerWorker(t.opens)
            && (w != seg.worker ==>
                  && FindOpen(t.opens, w, None) == FindOpen(s.opens, w, None) != k
                  && ForWorker(t.emitted, w) == ForWorker(s.emitted, w))
            && (w == seg.worker ==>
                  && FindOpen(t.opens, w, None) == |t.opens|
                  && ForWorker(t.emitted, w) == ForWorker(s.emitted, w) + [seg])
  {
    ForWorkerGrows(s.emitted, seg, w);
    ShowsUpdate(s.opens, k, FREE, w);
  }

  lemma OutKeeps(s: State, lines: seq<Line>, n: nat, fromTs: int, toTs: int)
    requires n < |lines| && Represents(s, lines, n, fromTs, toTs) && Counts(lines[n], fromTs, toTs)
    requires WorkerId(lines[n]) != 0 && lines[n].kind.value.Out?
    ensures Represents(OnLine(s, lines[n], fromTs, toTs), lines, n + 1, fromTs, toTs)
  {
    var l, t, m := lines[n], OnLine(s, lines[n], fromTs, toTs), n + 1;
    var v := WorkerId(l);
    var k := FindOpen(s.opens, v, None);
    PeerIrrelevant(s.opens, v, l.peer, 0);
    forall w: nat | w != 0
      ensures Agrees(t, w, OwnFold(lines, m, w, fromTs, toTs))
    {
      assert Agrees(s, w, OwnFold(lines, n, w, fromTs, toTs));
      if k < |s.opens| { ReleaseShows(s, k, Closed(s.opens[k], l), w); }
    }
    if k < |s.opens| { ReleaseShows(s, k, Closed(s.opens[k], l), v); }
  }

  lemma PlaceShows(s: State, f: nat, o: Open, w: nat)
    requires OnePerWorker(s.opens) && f < |s.opens| && s.opens[f].inTs == 0 && w != 0
    requires 0 < o.worker < 65536 && FindOpen(s.opens, o.worker, None) == |s.opens|
    ensures var news := s.opens[f := o];
            && OnePerWorker(news)
            && (w != o.worker ==> FindOpen(news, w, None) == FindOpen(s.opens, w, None) != f)
            && (w == o.worker ==> FindOpen(news, w, None) == if o.inTs != 0 then f else |news|)
  {
    var news := s.opens[f := o];
    assert forall j :: 0 <= j < |s.opens| ==> !Belongs(s.opens[j], o.worker, None);
    ShowsUpdate(s.opens, f, o, w);
  }

  lemma InKeeps(s: State, lines: seq<Line>, n: nat, fromTs: int, toTs: int)
    requires n < |lines| && Represents(s, lines, n, fromTs, toTs) && IsIn(lines[n], fromTs, toTs)
    requires WorkerId(lines[n]) != 0
    requires |OthersIn(lines, n, WorkerId(lines[n]), fromTs, toTs)| < MAX_OPEN
    ensures Represents(OnLine(s, lines[n], fromTs, toTs), lines, n + 1, fromTs, toTs)
  {
    var l, t, m := lines[n], OnLine(s, lines[n], fromTs, toTs), n + 1;
    var v, o := WorkerId(l), Opened(l);
    var k := FindOpen(s.opens, v, None);
    PeerIrrelevant(s.opens, v, l.peer, 0);
    var r := if k < |s.opens| then Release(s, k, StillOpen(s.opens[k])) else s;
    if k < |s.opens| { ReleaseShows(s, k, StillOpen(s.opens[k]), v); }
    forall w: nat | w != 0 && w != v
      ensures Shows(r.opens, w, OwnFold(lines, n, w, fromTs, toTs).open)
      ensures ForWorker(r.emitted, w) == OwnFold(lines, n, w, fromTs, toTs).emitted
    {
      assert Agrees(s, w, OwnFold(lines, n, w, fromTs, toTs));
      if k < |s.opens| { ReleaseShows(s, k, StillOpen(s.opens[k]), w); }
    }
    assert Agrees(s, v, OwnFold(lines, n, v, fromTs, toTs));
    var f := FindFree(r.opens);
    if f == |r.opens| {
      assert forall i :: 0 <= i < |r.opens| ==> !Belongs(r.opens[i], v, None);
      FullMeansSixteen(r.opens, lines, n, v, fromTs, toTs);
      assert false;
    }
    forall w: nat | w != 0
      ensures Agrees(t, w, OwnFold(lines, m, w, fromTs, toTs))
    {
      PlaceShows(r, f, o, w);
    }
    PlaceShows(r, f, o, v);
  }

  lemma {:induction false} FoldRepresents(lines: seq<Line>, n: nat, fromTs: int, toTs: int)
    requires n <= |lines| && Named(lines, fromTs, toTs) && Roomy(lines, fromTs, toTs)
    ensures Represents(Fold(lines, n, fromTs, toTs), lines, n, fromTs, toTs)
  {
    if n > 0 {
      FoldRepresents(lines, n - 1, fromTs, toTs);
      var s, l := Fold(lines, n - 1, fromTs, toTs), lines[n - 1];
      if Counts(l, fromTs, toTs) {
        if l.kind.value.In? {
          InKeeps(s, lines, n - 1, fromTs, toTs);
        } else {
          OutKeeps(s, lines, n - 1, fromTs, toTs);
        }
      } else {
        forall w: nat
          ensures OwnFold(lines, n, w, fromTs, toTs) == OwnFold(lines, n - 1, w, fromTs, toTs)
        {
        }
      }
    }
  }

  /** The flush adds exactly the worker's open IN. */
  lemma {:induction false} FlushedForWorker(opens: seq<Open>, n: nat, w: nat)
    requires n <= |opens| && OnePerWorker(opens) && w != 0
    ensures var k := FindOpen(opens, w, None);
            ForWorker(Flushed(opens, n), w) == if k < n then [StillOpen(opens[k])] else []
  {
    if n > 0 {
      FlushedForWorker(opens, n - 1, w);
      var o := opens[n - 1];
      if o.inTs != 0 {
        ForWorkerGrows(Flushed(opens, n - 1), StillOpen(o), w);
        OnlySlot(opens, n - 1);
      } else {
        assert Flushed(opens, n) == Flushed(opens, n - 1);
      }
    }
  }

  lemma {:induction false} ForWorkerConcat(a: seq<Segment>, b: seq<Segment>, w: nat)
    ensures ForWorker(a + b, w) == ForWorker(a, w) + ForWorker(b, w)
  {
    if b == [] {
      assert a + b == a;
    } else {
      var c, last := b[..|b| - 1], b[|b| - 1];
      ForWorkerConcat(a, c, w);
      ForWorkerGrows(a + c, last, w);
      assert a + b == (a + c) + [last];
      var mine := if last.worker == w then [last] else [];
      assert (ForWorker(a, w) + ForWorker(c, w)) + mine == ForWorker(a, w) + (ForWorker(c, w) + mine);
    }
  }

  /** Refinement: as long as fewer than sixteen other workers are in whenever someone comes in, the segments
      emitted for each worker are those of its own events, in the same order. */
  lemma TableRefinesOwn(lines: seq<Line>, w: nat, fromTs: int, toTs: int)
    requires Named(lines, fromTs, toTs) && Roomy(lines, fromTs, toTs) && w != 0
    ensures ForWorker(Segments(lines, fromTs, toTs), w) == OwnSegments(lines, w, fromTs, toTs)
  {
    FoldRepresents(lines, |lines|, fromTs, toTs);
    var s := Fold(lines, |lines|, fromTs, toTs);
    assert Agrees(s, w, OwnFold(lines, |lines|, w, fromTs, toTs));
    FlushedForWorker(s.opens, MAX_OPEN, w);
    ForWorkerConcat(s.emitted, Flushed(s.opens, MAX_OPEN), w);
  }
}
