/** The worker ids on the log's lines: each peer keeps one id for the life of the device, and no two share one. */
module Numbering {
  import opened Common
  import opened EventLines
  import opened Presence
  import opened Lifetimes
  import opened Session
  import S = PresenceSafety
  import D = Debounce
  import W = Workers
  import V = WorkersReboot

  // ---------- no more peers than slots ----------

  function Peers(log: seq<Line>): set<Addr> {
    if log == [] then {}
    else
      var l := log[|log| - 1];
      Peers(log[..|log| - 1]) + if l.peer.Some? then {l.peer.value} else {}
  }

  lemma {:induction false} PeerListed(log: seq<Line>, i: nat)
    requires i < |log| && log[i].peer.Some?
    ensures log[i].peer.value in Peers(log)
  {
    if i < |log| - 1 { PeerListed(log[..|log| - 1], i); }
  }

  lemma PeersPush(log: seq<Line>, l: Line)
    ensures Peers(log + [l]) == Peers(log) + if l.peer.Some? then {l.peer.value} else {}
  {
    assert (log + [l])[..|log|] == log;
  }

  /** Everyone with a line in the file at the boot has a slot throughout the run. */
  lemma {:induction false} OldPeersHome(r: Run, d: Disk, g: Setting)
    requires r.Legal() && Undisturbed(r, g.timeoutMs) && Informed(r, d, g) && Complete(Kept(d))
    ensures |r.End().slots| == SLOTS && d.gone <= g.rotated(Steps(r))
    ensures forall i :: 0 <= i < |Kept(d)| ==> IndexOf(r.End().slots, Kept(d)[i].peer.value) < SLOTS
  {
    match r
    case Booted(_, _, _, _) => BootAllocates(r);
    case Then(before, step) =>
      OldPeersHome(before, d, g);
      forall i | 0 <= i < |Kept(d)|
        ensures IndexOf(r.End().slots, Kept(d)[i].peer.value) < SLOTS
      {
        var a := Kept(d)[i].peer.value;
        var k := IndexOf(before.End().slots, a);
        S.StepHome(before.End(), step, k);
        assert Holds(r.End().slots[k], a);
      }
  }

  function SlotAddrs(slots: seq<Slot>): (addrs: set<Addr>)
    ensures |addrs| <= |slots|
    ensures forall i :: 0 <= i < |slots| ==> slots[i].addr in addrs
  {
    if slots == [] then {} else {slots[0].addr} + SlotAddrs(slots[1..])
  }

  /** A new line is the line of a call. */
  lemma {:induction false} NewLine(d: Disk, calls: seq<D.Call>, wall: int -> int, j: nat)
    requires |d.written| <= j < |WriteAll(d, calls, wall).written|
    ensures exists c :: c in calls && WriteAll(d, calls, wall).written[j].peer == Some(c.peer)
  {
    var rest, c := calls[..|calls| - 1], calls[|calls| - 1];
    var e := WriteAll(d, rest, wall);
    if j < |e.written| {
      NewLine(d, rest, wall, j);
      var b :| b in rest && e.written[j].peer == Some(b.peer);
      assert b in calls;
    } else {
      assert c in calls;
    }
  }

  lemma {:induction false} PeersAreLines(log: seq<Line>, a: Addr)
    requires a in Peers(log)
    ensures exists i :: 0 <= i < |log| && log[i].peer == Some(a)
  {
    if log[|log| - 1].peer != Some(a) { PeersAreLines(log[..|log| - 1], a); }
  }

  lemma CallersHome(r: Run, g: Setting, c: D.Call)
    requires r.Legal() && Undisturbed(r, g.timeoutMs) && c in Calls(r.End().notes)
    ensures IndexOf(r.End().slots, c.peer) < |r.End().slots|
  {
    RunCalm(r, g.timeoutMs);
    CallsSpaced(r.End().notes);
    var n :| n in r.End().notes && n == Presence.Recorded(c.peer, c.kind, c.at);
  }

  /** The peer of a line that was in the file at the boot has a slot after the run. */
  lemma OldLineHome(r: Run, d: Disk, g: Setting, l: Line)
    requires r.Legal() && Undisturbed(r, g.timeoutMs) && Informed(r, d, g) && Complete(Kept(d)) && l in Kept(d)
    ensures |r.End().slots| == SLOTS && l.peer.Some? && IndexOf(r.End().slots, l.peer.value) < SLOTS
  {
    OldPeersHome(r, d, g);
    var i :| 0 <= i < |Kept(d)| && Kept(d)[i] == l;
  }

  /** So has the peer of a new line. */
  lemma NewLineHome(r: Run, d: Disk, g: Setting, j: nat)
    requires r.Legal() && Undisturbed(r, g.timeoutMs)
    requires |d.written| <= j < |WriteAll(d, Calls(r.End().notes), g.wall).written|
    ensures var l := WriteAll(d, Calls(r.End().notes), g.wall).written[j];
            l.peer.Some? && IndexOf(r.End().slots, l.peer.value) < |r.End().slots|
  {
    var calls := Calls(r.End().notes);
    NewLine(d, calls, g.wall, j);
    var c :| c in calls && WriteAll(d, calls, g.wall).written[j].peer == Some(c.peer);
    CallersHome(r, g, c);
  }

  /** A line of the file after a run is one that the boot found, or a new one; its peer has a slot. */
  lemma LineHome(r: Run, d: Disk, g: Setting, i: nat)
    requires r.Legal() && Undisturbed(r, g.timeoutMs) && Informed(r, d, g) && Complete(Kept(d))
    requires d.gone <= |d.written| && i < |Kept(Leaves(d, r, g))|
    ensures var l := Kept(Leaves(d, r, g))[i];
            |r.End().slots| == SLOTS && l.peer.Some? && IndexOf(r.End().slots, l.peer.value) < SLOTS
  {
    hide Undisturbed, Run.Legal, Informed, IndexOf, After, WriteAll;
    var j := g.rotated(Steps(r)) + i;
    AfterUndisturbed(d, r, g);
    WritesOn(d, r.End().notes, g.wall);
    OldPeersHome(r, d, g);
    if j < |d.written| {
      assert Kept(Leaves(d, r, g))[i] == d.written[j] == Kept(d)[j - d.gone];
      OldLineHome(r, d, g, d.written[j]);
    } else {
      NewLineHome(r, d, g, j);
    }
  }

  /** The file of a device never names more than eight peers. */
  lemma PeersFew(l: Life)
    requires Lived(l) && Ordered(DiskOf(l).written)
    ensures |Peers(Kept(DiskOf(l)))| <= 8
  {
    hide Run.Legal, Run.End, Informed, Undisturbed, Ordered, IndexOf;
    match l
    case Factory(_) =>
    case Reboot(before, g, run) =>
      var d, s, file := AtBoot(before), run.End(), Kept(DiskOf(l));
      AfterUndisturbed(d, run, g);
      WritesOn(d, s.notes, g.wall);
      OrderedPiece(d.written, DiskOf(l).written, 0);
      LogAlternates(before);
      assert forall i :: 0 <= i < |Kept(d)| ==> Kept(d)[i] == d.written[d.gone + i];
      OldPeersHome(run, d, g);
      var addrs := SlotAddrs(s.slots);
      forall a | a in Peers(file)
        ensures a in addrs
      {
        PeersAreLines(file, a);
        var i :| 0 <= i < |file| && file[i].peer == Some(a);
        LineHome(run, d, g, i);
        assert Holds(s.slots[IndexOf(s.slots, a)], a);
      }
      SubsetSize(Peers(file), addrs);
  }

  lemma {:induction false} PeersGrow(log: seq<Line>, more: seq<Line>)
    requires log <= more
    ensures Peers(log) <= Peers(more)
  {
    if log == more {
    } else {
      var l := more[|more| - 1];
      assert more == more[..|more| - 1] + [l];
      PeersGrow(log, more[..|more| - 1]);
    }
  }

  // ---------- ids ----------

  /** Every line carries the id under which its peer is registered. */
  predicate Numbered(log: seq<Line>, ram: seq<W.Worker>) {
    forall i :: 0 <= i < |log| ==>
      log[i].peer.Some? && log[i].workerId == Some(W.Find(ram, log[i].peer.value)) && log[i].workerId != Some(0)
  }

  function Addrs(ram: seq<W.Worker>): (addrs: set<Addr>)
    ensures |addrs| <= |ram|
  {
    if ram == [] then {} else Addrs(ram[..|ram| - 1]) + {ram[|ram| - 1].addr}
  }

  lemma {:induction false} AddrListed(ram: seq<W.Worker>, a: Addr)
    ensures a in Addrs(ram) <==> exists i :: 0 <= i < |ram| && ram[i].addr == a
  {
    if ram != [] {
      AddrListed(ram[..|ram| - 1], a);
      if ram[|ram| - 1].addr != a && a in Addrs(ram) {
        var i :| 0 <= i < |ram| - 1 && ram[..|ram| - 1][i].addr == a;
        assert ram[i].addr == a;
      }
      if i :| 0 <= i < |ram| - 1 && ram[i].addr == a { assert ram[..|ram| - 1][i].addr == a; }
    }
  }

  lemma {:induction false} AddrsSize(ram: seq<W.Worker>)
    requires DistinctAddrs(ram)
    ensures |Addrs(ram)| == |ram|
  {
    if ram != [] {
      AddrsSize(ram[..|ram| - 1]);
      AddrListed(ram[..|ram| - 1], ram[|ram| - 1].addr);
    }
  }

  /** The only worker with an address is the one that is found. */
  lemma FindIs(ram: seq<W.Worker>, i: nat)
    requires DistinctAddrs(ram) && i < |ram|
    ensures W.Find(ram, ram[i].addr) == ram[i].id
  {
    var k := W.SlotAt(ram, ram[i].addr);
    assert k <= i;
  }

  /** The registry is as the seed and the log's peers make it. */
  ghost predicate RegistryOk(seed: W.Registry, d: Disk) {
    var w := d.workers;
    W.Inv(w) && DistinctAddrs(w.ram) && w.next - seed.next == |w.ram| - |seed.ram|
    && Addrs(w.ram) <= SeedAddrs(seed) + Peers(d.written) && Numbered(d.written, w.ram)
  }

  function SeedAddrs(seed: W.Registry): set<Addr> {
    Addrs(seed.ram)
  }

  lemma UnionSize(s: set<Addr>, t: set<Addr>)
    ensures |s + t| <= |s| + |t|
  {
    assert s + t == s + (t - s);
    SubsetSize(t - s, t);
  }

  /** The registry has room for so many more workers. */
  predicate RoomFor(r: W.Registry, n: nat) {
    |r.ram| + n <= W.MAX_WORKERS && r.next + n <= W.LAST_ID
  }

  /** While fewer peers than there is room for have had lines there is room for one more worker. */
  lemma RoomForOne(seed: W.Registry, d: Disk, n: nat)
    requires RoomFor(seed, n) && RegistryOk(seed, d) && |Peers(d.written)| < n
    ensures |d.workers.ram| < W.MAX_WORKERS && d.workers.next < W.LAST_ID
  {
    AddrsSize(d.workers.ram);
    SubsetSize(Addrs(d.workers.ram), SeedAddrs(seed) + Peers(d.written));
    UnionSize(SeedAddrs(seed), Peers(d.written));
  }

  /** Everyone with a line is registered. */
  lemma LinePeersFound(log: seq<Line>, ram: seq<W.Worker>, a: Addr)
    requires Numbered(log, ram) && a in Peers(log)
    ensures W.Find(ram, a) != 0
  {
    PeersAreLines(log, a);
  }

  lemma FindPushed(ram: seq<W.Worker>, w: W.Worker, a: Addr)
    requires W.Find(ram, a) != 0
    ensures W.Find(ram + [w], a) == W.Find(ram, a)
  {
    var more, i := ram + [w], W.SlotAt(ram, a);
    assert more[i] == ram[i] && forall j :: 0 <= j < i ==> more[j] == ram[j];
    assert W.SlotAt(more, a) == i;
  }

  lemma FindNew(ram: seq<W.Worker>, w: W.Worker)
    requires forall i :: 0 <= i < |ram| ==> ram[i].addr != w.addr
    ensures W.Find(ram + [w], w.addr) == w.id
  {
    var more := ram + [w];
    assert forall j :: 0 <= j < |ram| ==> more[j] == ram[j];
    assert more[|ram|] == w && W.SlotAt(more, w.addr) == |ram|;
  }

  lemma NotRegistered(r: W.Registry, a: Addr)
    requires W.Inv(r) && W.Find(r.ram, a) == 0
    ensures forall i :: 0 <= i < |r.ram| ==> r.ram[i].addr != a
  {
  }

  /** An event of a peer that has a worker. */
  lemma RecordKnown(seed: W.Registry, d: Disk, c: D.Call, ts: int)
    requires RegistryOk(seed, d) && W.Find(d.workers.ram, c.peer) != 0
    ensures RegistryOk(seed, Record(d, c, ts))
  {
    PeersPush(d.written, LineOf(c, ts, W.LookupResult(d.workers, c.peer)));
  }

  lemma NumberedPush(log: seq<Line>, l: Line, ram: seq<W.Worker>, w: W.Worker)
    requires Numbered(log, ram) && l.peer == Some(w.addr) && l.workerId == Some(w.id) && w.id != 0
    requires forall i :: 0 <= i < |ram| ==> ram[i].addr != w.addr
    ensures Numbered(log + [l], ram + [w])
  {
    var more := log + [l];
    FindNew(ram, w);
    forall i | 0 <= i < |more|
      ensures more[i].peer.Some? && more[i].workerId == Some(W.Find(ram + [w], more[i].peer.value))
      ensures more[i].workerId != Some(0)
    {
      if i < |log| { FindPushed(ram, w, log[i].peer.value); }
    }
  }

  lemma AddrsPush(ram: seq<W.Worker>, w: W.Worker)
    ensures Addrs(ram + [w]) == Addrs(ram) + {w.addr}
  {
    assert (ram + [w])[..|ram|] == ram;
  }

  /** An event of a peer that gets one. */
  lemma RecordNew(seed: W.Registry, d: Disk, c: D.Call, ts: int)
    requires RegistryOk(seed, d) && W.Find(d.workers.ram, c.peer) == 0
    requires |d.workers.ram| < W.MAX_WORKERS && d.workers.next < W.LAST_ID
    ensures RegistryOk(seed, Record(d, c, ts))
  {
    hide Numbered, Addrs, Peers, W.Find;
    var r := d.workers;
    var w := W.Worker(r.next, c.peer, W.StubName(r.next, c.peer), "", ts);
    NotRegistered(r, c.peer);
    V.CreateKeeps(r, c.peer, ts);
    RecordAs(seed, d, LineOf(c, ts, w.id), w, W.Create(r, c.peer, ts));
  }

  lemma RecordAs(seed: W.Registry, d: Disk, l: Line, w: W.Worker, r: W.Registry)
    requires RegistryOk(seed, d) && W.Inv(r) && r.ram == d.workers.ram + [w] && r.next == d.workers.next + 1
    requires l.peer == Some(w.addr) && l.workerId == Some(w.id) && w.id != 0
    requires forall i :: 0 <= i < |d.workers.ram| ==> d.workers.ram[i].addr != w.addr
    ensures RegistryOk(seed, d.(written := d.written + [l], workers := r))
  {
    PeersPush(d.written, l);
    AddrsPush(d.workers.ram, w);
    NumberedPush(d.written, l, d.workers.ram, w);
  }

  lemma RecordKeeps(seed: W.Registry, d: Disk, c: D.Call, ts: int, n: nat)
    requires RoomFor(seed, n) && RegistryOk(seed, d) && |Peers(d.written) + {c.peer}| <= n
    ensures RegistryOk(seed, Record(d, c, ts))
  {
    if W.Find(d.workers.ram, c.peer) != 0 {
      RecordKnown(seed, d, c, ts);
    } else {
      if c.peer in Peers(d.written) { LinePeersFound(d.written, d.workers.ram, c.peer); }
      RoomForOne(seed, d, n);
      RecordNew(seed, d, c, ts);
    }
  }

  lemma {:induction false} WriteKeeps(seed: W.Registry, d: Disk, calls: seq<D.Call>, wall: int -> int, n: nat)
    requires RoomFor(seed, n) && RegistryOk(seed, d) && |Peers(WriteAll(d, calls, wall).written)| <= n
    ensures RegistryOk(seed, WriteAll(d, calls, wall))
  {
    if calls != [] {
      var rest, c := calls[..|calls| - 1], calls[|calls| - 1];
      var e := WriteAll(d, rest, wall);
      PeersPush(e.written, LineOf(c, wall(c.at), W.LookupResult(e.workers, c.peer)));
      SubsetSize(Peers(e.written), Peers(WriteAll(d, calls, wall).written));
      WriteKeeps(seed, d, rest, wall, n);
      RecordKeeps(seed, e, c, wall(c.at), n);
    }
  }

  // ---------- restarts ----------

  lemma {:induction false} IdsSize(ram: seq<W.Worker>)
    requires W.DistinctIds(ram)
    ensures |V.Ids(ram)| == |ram| && forall x :: x in V.Ids(ram) ==> exists i :: 0 <= i < |ram| && ram[i].id == x
  {
    if ram != [] {
      IdsSize(ram[1..]);
      forall x | x in V.Ids(ram)
        ensures exists i :: 0 <= i < |ram| && ram[i].id == x
      {
        if x in V.Ids(ram[1..]) {
          var i :| 0 <= i < |ram| - 1 && ram[1..][i].id == x;
          assert ram[i + 1].id == x;
        } else {
          assert ram[0].id == x;
        }
      }
      forall x | x in V.Ids(ram[1..])
        ensures x != ram[0].id
      {
        var i :| 0 <= i < |ram| - 1 && ram[1..][i].id == x;
        assert ram[i + 1].id == x;
      }
    }
  }

  /** Two lists of the same workers, all with different ids. */
  lemma SameLength(x: seq<W.Worker>, y: seq<W.Worker>)
    requires W.DistinctIds(x) && W.DistinctIds(y) && forall w :: w in x <==> w in y
    ensures |x| == |y|
  {
    IdsSize(x);
    IdsSize(y);
    forall id | id in V.Ids(x)
      ensures id in V.Ids(y)
    {
      var i :| 0 <= i < |x| && x[i].id == id;
      assert x[i] in y;
      var j :| 0 <= j < |y| && y[j] == x[i];
    }
    forall id | id in V.Ids(y)
      ensures id in V.Ids(x)
    {
      var i :| 0 <= i < |y| && y[i].id == id;
      assert y[i] in x;
      var j :| 0 <= j < |x| && x[j] == y[i];
    }
    assert V.Ids(x) == V.Ids(y);
  }

  lemma SameAddrs(x: seq<W.Worker>, y: seq<W.Worker>)
    requires DistinctAddrs(x) && W.DistinctIds(y) && forall w :: w in x <==> w in y
    ensures DistinctAddrs(y) && Addrs(y) <= Addrs(x)
    ensures forall a :: W.Find(x, a) != 0 ==> W.Find(y, a) == W.Find(x, a)
  {
    forall i, j | 0 <= i < j < |y|
      ensures y[i].addr != y[j].addr
    {
      assert y[i] in x && y[j] in x;
      var k :| 0 <= k < |x| && x[k] == y[i];
      var m :| 0 <= m < |x| && x[m] == y[j];
      assert k != m;
    }
    forall a | a in Addrs(y)
      ensures a in Addrs(x)
    {
      AddrListed(y, a);
      AddrListed(x, a);
      var i :| 0 <= i < |y| && y[i].addr == a;
      assert y[i] in x;
      var k :| 0 <= k < |x| && x[k] == y[i];
    }
    forall a | W.Find(x, a) != 0
      ensures W.Find(y, a) == W.Find(x, a)
    {
      var k := W.SlotAt(x, a);
      assert x[k] in y;
      var i: nat :| i < |y| && y[i] == x[k];
      FindIs(y, i);
    }
  }

  lemma RebootKeepsRegistry(seed: W.Registry, d: Disk)
    requires RegistryOk(seed, d)
    ensures RegistryOk(seed, d.(workers := W.Reboot(d.workers)))
  {
    V.RebootKeeps(d.workers);
    SameLength(d.workers.ram, W.Reboot(d.workers).ram);
    SameAddrs(d.workers.ram, W.Reboot(d.workers).ram);
  }

  // ---------- the whole life ----------

  function Seed(l: Life): W.Registry {
    match l
    case Factory(workers) => workers
    case Reboot(before, _, _) => Seed(before)
  }

  /** Over any number of boots every line that was ever written carries the id under which its peer is registered
      now, as long as the registry had room for all these peers; and at most eight peers have lines in the file. */
  lemma {:induction false} LinesNumbered(l: Life)
    requires Lived(l) && Ordered(DiskOf(l).written) && RoomFor(Seed(l), |Peers(DiskOf(l).written)|)
    ensures RegistryOk(Seed(l), DiskOf(l)) && |Peers(Kept(DiskOf(l)))| <= 8
  {
    PeersFew(l);
    match l
    case Factory(workers) =>
      assert forall a :: a in Addrs(workers.ram) ==> a in SeedAddrs(workers);
    case Reboot(before, g, run) =>
      var d, calls := AtBoot(before), Calls(run.End().notes);
      AfterUndisturbed(d, run, g);
      WritesOn(d, run.End().notes, g.wall);
      OrderedPiece(d.written, DiskOf(l).written, 0);
      PeersGrow(d.written, DiskOf(l).written);
      SubsetSize(Peers(d.written), Peers(DiskOf(l).written));
      LinesNumbered(before);
      RebootKeepsRegistry(Seed(before), DiskOf(before));
      WriteKeeps(Seed(l), d, calls, g.wall, |Peers(DiskOf(l).written)|);
      assert DiskOf(l).workers == WriteAll(d, calls, g.wall).workers;
  }

  /** Different peers have different ids. */
  lemma IdsDiffer(r: W.Registry, a: Addr, b: Addr)
    requires W.Inv(r) && W.Find(r.ram, a) != 0 && W.Find(r.ram, a) == W.Find(r.ram, b)
    ensures a == b && W.Find(r.ram, a) < W.ID_SPAN
  {
    var i, j := W.SlotAt(r.ram, a), W.SlotAt(r.ram, b);
    assert r.ram[i].id == r.ram[j].id;
  }
}
