/** From radio to report: what the paired view shows for each peer over the whole life of a device. */
module EndToEnd {
  import opened Common
  import opened EventLines
  import opened Lifetimes
  import opened Numbering
  import opened SampleRuns
  import opened Session
  import P = Presence
  import D = Debounce
  import V = Pairing
  import O = PairingPerWorker
  import W = Workers

  // ---------- what an alternating log shows ----------

  /** How often the peer is logged as leaving. */
  function Outs(log: seq<Line>, a: Addr): nat {
    if log == [] then 0
    else
      var l := log[|log| - 1];
      Outs(log[..|log| - 1], a) + if Of(l, a) && l.kind == Some(Out) then 1 else 0
  }

  /** The times of the peer's lines. */
  function TimesOf(log: seq<Line>, a: Addr): seq<int> {
    if log == [] then []
    else
      var l := log[|log| - 1];
      TimesOf(log[..|log| - 1], a) + if Of(l, a) then [Ts(l)] else []
  }

  /** The peer's lines begin with an OUT. */
  predicate LeadsOut(log: seq<Line>, a: Addr) {
    if log == [] then false
    else if LeadsOut(log[..|log| - 1], a) then true
    else
      var l := log[|log| - 1];
      Of(l, a) && l.kind == Some(Out) && LastKind(log[..|log| - 1], a) == None
  }

  /** How many of the peer's lines answer no line of the file: none or one. */
  function Orphans(log: seq<Line>, a: Addr): nat {
    if LeadsOut(log, a) then 1 else 0
  }

  /** The times at which segments begin and end. */
  function Endpoints(segments: seq<V.Segment>): seq<int> {
    if segments == [] then []
    else
      var last := segments[|segments| - 1];
      Endpoints(segments[..|segments| - 1]) + [last.inTs] + if last.end.Some? then [last.end.value.ts] else []
  }

  lemma EndpointsPush(segments: seq<V.Segment>, s: V.Segment)
    ensures Endpoints(segments + [s])
            == Endpoints(segments) + [s.inTs] + if s.end.Some? then [s.end.value.ts] else []
  {
    assert (segments + [s])[..|segments|] == segments;
  }

  predicate AllClosed(segments: seq<V.Segment>) {
    forall i :: 0 <= i < |segments| ==> segments[i].end.Some?
  }

  /** The segments closed so far and the open one, if any. */
  function Shown(own: O.Own): seq<V.Segment> {
    own.emitted + if own.open.Some? then [V.StillOpen(own.open.value)] else []
  }

  /** A complete alternating log whose lines carry the ids of a registry. */
  ghost predicate Reportable(log: seq<Line>, r: W.Registry) {
    Complete(log) && Alternates(log) && W.Inv(r) && Numbered(log, r.ram)
  }

  lemma ReportablePrefix(log: seq<Line>, l: Line, r: W.Registry)
    requires Reportable(log + [l], r)
    ensures Reportable(log, r)
    ensures l.kind.Some? && l.peer.Some? && l.ts.Some? && Ts(l) > 0
    ensures WorkerId(l) == W.Find(r.ram, l.peer.value) != 0
    ensures l.kind != LastKind(log, l.peer.value)
  {
    var more := log + [l];
    forall k | 0 <= k < |log|
      ensures Differs(log, k)
    {
      assert Differs(more, k) && more[..k] == log[..k] && more[k] == log[k];
    }
    assert forall i :: 0 <= i < |log| ==> more[i] == log[i];
    assert more[|log|] == l && Differs(more, |log|) && more[..|log|] == log;
    IdsDiffer(r, l.peer.value, l.peer.value);
  }

  lemma {:induction false} OwnFoldPrefix(log: seq<Line>, l: Line, n: nat, w: nat)
    requires n <= |log|
    ensures O.OwnFold(log + [l], n, w, 0, 0) == O.OwnFold(log, n, w, 0, 0)
  {
    if n > 0 { OwnFoldPrefix(log, l, n - 1, w); }
  }

  function OwnOf(log: seq<Line>, w: nat): O.Own {
    O.OwnFold(log, |log|, w, 0, 0)
  }

  lemma OwnStep(log: seq<Line>, l: Line, w: nat)
    ensures OwnOf(log + [l], w) == O.OnOwn(OwnOf(log, w), l, w, 0, 0)
  {
    OwnFoldPrefix(log, l, |log|, w);
    assert (log + [l])[|log|] == l;
  }

  /** A line closes the open segment or opens one, and its time is the next endpoint. */
  lemma OneMoreLine(own: O.Own, l: Line)
    requires l.kind.Some? && l.ts.Some? && Ts(l) > 0 && (own.open.Some? <==> l.kind.value.Out?)
    ensures var after := O.OnOwn(own, l, WorkerId(l), 0, 0);
            Endpoints(Shown(after)) == Endpoints(Shown(own)) + [Ts(l)]
            && after.open.Some? == l.kind.value.In?
            && after.emitted == own.emitted + if l.kind.value.Out? then [V.Closed(own.open.value, l)] else []
  {
    var after := O.OnOwn(own, l, WorkerId(l), 0, 0);
    if l.kind.value.Out? {
      var o := own.open.value;
      EndpointsPush(own.emitted, V.StillOpen(o));
      EndpointsPush(own.emitted, V.Closed(o, l));
      assert Shown(after) == own.emitted + [V.Closed(o, l)];
      assert Endpoints(Shown(own)) == Endpoints(own.emitted) + [o.inTs] + [];
    } else {
      EndpointsPush(own.emitted, V.StillOpen(V.Opened(l)));
      assert Shown(own) == own.emitted;
    }
  }

  /** An OUT without an open IN changes nothing. */
  lemma StrayOut(own: O.Own, l: Line)
    requires l.kind == Some(Out) && own.open == None
    ensures O.OnOwn(own, l, WorkerId(l), 0, 0) == own
  {
  }

  lemma InOrOut(k: Option<Kind>)
    ensures k == None || k == Some(In) || k == Some(Out)
  {
    if k.Some? {
      match k.value
      case In =>
      case Out =>
    }
  }

  /** What the fold knows of a worker agrees with its peer's lines: its IN is open exactly while the last one is an
      IN, every segment so far is closed by an OUT that has its IN in the file, and the endpoints are the times of
      the peer's lines but for a leading OUT. */
  ghost predicate Reports(own: O.Own, log: seq<Line>, a: Addr) {
    && (own.open.Some? <==> LastKind(log, a) == Some(In)) && AllClosed(own.emitted)
    && |own.emitted| + Orphans(log, a) == Outs(log, a)
    && Orphans(log, a) <= |TimesOf(log, a)| && Endpoints(Shown(own)) == TimesOf(log, a)[Orphans(log, a)..]
    && (LastKind(log, a) == None ==> TimesOf(log, a) == [] && own.emitted == [] && !LeadsOut(log, a))
  }

  lemma ReportsOwnLine(own: O.Own, older: seq<Line>, l: Line, a: Addr)
    requires Reports(own, older, a) && Of(l, a) && l.kind.Some? && l.ts.Some? && Ts(l) > 0
    requires l.kind != LastKind(older, a)
    ensures Reports(O.OnOwn(own, l, WorkerId(l), 0, 0), older + [l], a)
  {
    var log := older + [l];
    assert log[..|older|] == older;
    assert TimesOf(log, a) == TimesOf(older, a) + [Ts(l)];
    var n := Orphans(older, a);
    assert (TimesOf(older, a) + [Ts(l)])[n..] == TimesOf(older, a)[n..] + [Ts(l)];
    if l.kind.value.Out? && own.open == None {
      StrayOut(own, l);
      InOrOut(LastKind(older, a));
      assert LastKind(older, a) == None && Endpoints(Shown(own)) == [] && [Ts(l)][1..] == [];
    } else {
      OneMoreLine(own, l);
    }
  }

  lemma ReportsOtherLine(own: O.Own, older: seq<Line>, l: Line, a: Addr)
    requires Reports(own, older, a) && !Of(l, a)
    ensures Reports(own, older + [l], a)
  {
    assert (older + [l])[..|older|] == older;
    assert TimesOf(older + [l], a) == TimesOf(older, a);
  }

  lemma {:induction false} OwnTracks(log: seq<Line>, r: W.Registry, a: Addr)
    requires Reportable(log, r) && W.Find(r.ram, a) != 0
    ensures Reports(OwnOf(log, W.Find(r.ram, a)), log, a)
  {
    if log != [] {
      var older, l, w := log[..|log| - 1], log[|log| - 1], W.Find(r.ram, a);
      assert log == older + [l];
      ReportablePrefix(older, l, r);
      OwnTracks(older, r, a);
      OwnStep(older, l, w);
      if Of(l, a) {
        ReportsOwnLine(OwnOf(older, w), older, l, a);
      } else {
        if WorkerId(l) == w { IdsDiffer(r, a, l.peer.value); }
        ReportsOtherLine(OwnOf(older, w), older, l, a);
      }
    }
  }

  // ---------- few peers ----------

  lemma {:induction false} OpenHasLine(log: seq<Line>, n: nat, w: nat)
    requires n <= |log| && O.OwnFold(log, n, w, 0, 0).open.Some?
    ensures exists i :: 0 <= i < n && WorkerId(log[i]) == w
  {
    if O.OwnFold(log, n, w, 0, 0) == O.OwnFold(log, n - 1, w, 0, 0) {
      OpenHasLine(log, n - 1, w);
    } else {
      assert WorkerId(log[n - 1]) == w;
    }
  }

  function IdsOf(peers: set<Addr>, ram: seq<W.Worker>): set<nat> {
    set a | a in peers :: W.Find(ram, a)
  }

  lemma {:induction false} IdsOfSize(peers: set<Addr>, ram: seq<W.Worker>)
    ensures |IdsOf(peers, ram)| <= |peers|
  {
    if peers != {} {
      var a :| a in peers;
      IdsOfSize(peers - {a}, ram);
      assert IdsOf(peers, ram) == IdsOf(peers - {a}, ram) + {W.Find(ram, a)};
    } else {
      assert IdsOf(peers, ram) == {};
    }
  }

  lemma LineIds(log: seq<Line>, r: W.Registry, i: nat)
    requires W.Inv(r) && Numbered(log, r.ram) && i < |log|
    ensures WorkerId(log[i]) in IdsOf(Peers(log), r.ram) && WorkerId(log[i]) != 0
  {
    hide Peers, IdsOf, W.Find, W.Inv;
    var a := log[i].peer.value;
    assert log[i].workerId == Some(W.Find(r.ram, a));
    IdsDiffer(r, a, a);
    PeerListed(log, i);
    IdListed(Peers(log), r.ram, a);
  }

  lemma IdListed(peers: set<Addr>, ram: seq<W.Worker>, a: Addr)
    requires a in peers
    ensures W.Find(ram, a) in IdsOf(peers, ram)
  {
  }

  /** The log names a worker on every line, and eight peers never fill the table of open INs. */
  lemma LogIsRoomy(log: seq<Line>, r: W.Registry)
    requires Reportable(log, r) && |Peers(log)| < V.MAX_OPEN
    ensures O.Named(log, 0, 0) && O.Roomy(log, 0, 0)
  {
    var ids := IdsOf(Peers(log), r.ram);
    forall i | 0 <= i < |log|
      ensures WorkerId(log[i]) in ids && WorkerId(log[i]) != 0
    {
      LineIds(log, r, i);
    }
    IdsOfSize(Peers(log), r.ram);
    forall i | 0 <= i < |log| && V.IsIn(log[i], 0, 0)
      ensures |O.OthersIn(log, i, WorkerId(log[i]), 0, 0)| < V.MAX_OPEN
    {
      var others := O.OthersIn(log, i, WorkerId(log[i]), 0, 0);
      forall w | w in others
        ensures w in ids
      {
        OpenHasLine(log, i, w);
      }
      SubsetSize(others, ids);
    }
  }

  // ---------- the report ----------

  lemma FileOf(d: Disk, ram: seq<W.Worker>)
    requires d.gone <= |d.written| && Complete(d.written) && Numbered(d.written, ram)
    ensures Complete(Kept(d)) && Numbered(Kept(d), ram)
  {
    assert forall i :: 0 <= i < |Kept(d)| ==> Kept(d)[i] == d.written[d.gone + i];
  }

  /** The file of a life names workers and alternates. */
  lemma FileReportable(l: Life)
    requires Lived(l) && Ordered(DiskOf(l).written) && RoomFor(Seed(l), |Peers(DiskOf(l).written)|)
    ensures Reportable(Kept(DiskOf(l)), DiskOf(l).workers) && |Peers(Kept(DiskOf(l)))| <= P.SLOTS
  {
    LogAlternates(l);
    LinesNumbered(l);
    FileOf(DiskOf(l), DiskOf(l).workers.ram);
  }

  /** Over any number of boots, and whatever the rotations dropped, the paired view of the file shows for each
      registered peer one closed segment per departure in the file, each closed by an OUT, and after them one open
      segment if and only if the peer's last line is an IN; the times at which they begin and end are those of its
      lines, in order. An OUT with which the peer's lines begin, because its IN was rotated away, is not shown. */
  lemma ReportOfLife(l: Life, a: Addr)
    requires Lived(l) && Ordered(DiskOf(l).written) && RoomFor(Seed(l), |Peers(DiskOf(l).written)|)
    requires W.Find(DiskOf(l).workers.ram, a) != 0
    ensures var file := Kept(DiskOf(l));
            var shown := O.ForWorker(V.Segments(file, 0, 0), W.Find(DiskOf(l).workers.ram, a));
            var orphans := Orphans(file, a);
            var closed := Outs(file, a) - orphans;
            orphans <= |TimesOf(file, a)|
            && |shown| == closed + (if LastKind(file, a) == Some(In) then 1 else 0)
            && (forall i :: 0 <= i < |shown| ==> (shown[i].end.Some? <==> i < closed))
            && Endpoints(shown) == TimesOf(file, a)[orphans..]
  {
    var file, r := Kept(DiskOf(l)), DiskOf(l).workers;
    FileReportable(l);
    LogIsRoomy(file, r);
    O.TableRefinesOwn(file, W.Find(r.ram, a), 0, 0);
    OwnTracks(file, r, a);
  }

  /** A peer's lines in the file begin with an OUT only if its line before that, an IN, was rotated away. */
  lemma {:induction false} OrphanRotated(written: seq<Line>, gone: nat, n: nat, a: Addr)
    requires gone <= n <= |written| && Complete(written) && Answered(written) && LeadsOut(written[gone..n], a)
    ensures LastKind(written[..gone], a) == Some(In)
  {
    var file := written[gone..n];
    assert file[..|file| - 1] == written[gone..n - 1];
    if LeadsOut(written[gone..n - 1], a) {
      OrphanRotated(written, gone, n - 1, a);
    } else {
      assert Answers(written, n - 1);
      NoneBetween(written, gone, n - 1, a);
    }
  }

  lemma {:induction false} NoneBetween(written: seq<Line>, gone: nat, n: nat, a: Addr)
    requires gone <= n <= |written| && Complete(written) && LastKind(written[gone..n], a) == None
    ensures LastKind(written[..n], a) == LastKind(written[..gone], a)
  {
    if gone < n {
      assert written[gone..n][..n - 1 - gone] == written[gone..n - 1];
      assert written[..n][..n - 1] == written[..n - 1];
      assert written[gone..n][n - 1 - gone] == written[..n][n - 1] == written[n - 1];
      NoneBetween(written, gone, n - 1, a);
    }
  }

  /** Everyone with a line is registered, so the report speaks of every peer. */
  lemma EveryPeerReported(l: Life, i: nat)
    requires Lived(l) && Ordered(DiskOf(l).written) && RoomFor(Seed(l), |Peers(DiskOf(l).written)|)
    requires i < |Kept(DiskOf(l))|
    ensures var line := Kept(DiskOf(l))[i];
            line.peer.Some? && W.Find(DiskOf(l).workers.ram, line.peer.value) != 0
  {
    FileReportable(l);
    LineIds(Kept(DiskOf(l)), DiskOf(l).workers, i);
  }
}
